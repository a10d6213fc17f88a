/**
  Index revisions and skipping: a partly converted subtitle is skipped only while the font index
  revision is the one its job recorded. One action per step that reads or writes a revision, the
  index or a subtitle row.
*/
module Revision {
  import opened Text
  import opened ScanFilter

  const MAX: nat := 0xFFFF_FFFF_FFFF_FFFF

  // What a conversion job knows: the revision it read when it started, and how many index changes
  // there had been when it looked its first font up.
  datatype Job = Job(revision: nat, firstLookup: Option<nat>, recorded: bool)

  // A rebuild: not running; writing, having changed the index or not; having raised the revision
  // in memory; having stored it.
  datatype Rebuild = Idle | Writing(changed: bool) | Raised | Stored

  // `changes` counts every change of the index; `committed` is that count at the last rebuild that
  // changed the index and returned Ok.
  datatype State = State(revision: nat, stored: nat, changes: nat, committed: nat, rebuild: Rebuild, jobs: map<nat, Job>)

  datatype Action =
    | StartJob(id: nat)
    | LookUp(id: nat)
    | Record(id: nat)
    | Begin
    | Change
    | Raise
    | Store
    | ReturnOk
    | ReturnErr
    | Crash

  predicate Enabled(s: State, a: Action) {
    match a
    case StartJob(id) => id !in s.jobs
    case LookUp(id) => id in s.jobs && !s.jobs[id].recorded
    case Record(id) => id in s.jobs && !s.jobs[id].recorded && s.jobs[id].firstLookup.Some?
    case Begin => s.rebuild == Idle
    case Change => s.rebuild.Writing?
    case Raise => s.rebuild == Writing(true)
    case Store => s.rebuild == Raised
    case ReturnOk => s.rebuild == Writing(false) || s.rebuild == Stored
    case ReturnErr => s.rebuild != Idle
    case Crash => true
  }

  // `saturating_add(1)`
  function Next(revision: nat): nat {
    if revision < MAX then revision + 1 else revision
  }

  /** The revision grows by one until it is the largest number of 64 bits, and stays there. */
  lemma NextIs(revision: nat)
    ensures Next(revision) == if revision >= 0xFFFF_FFFF_FFFF_FFFF then revision else revision + 1
  {
  }

  // The jobs that a restart leaves: those whose result is in the database.
  function Recorded(jobs: map<nat, Job>): map<nat, Job> {
    map id | id in jobs && jobs[id].recorded :: jobs[id]
  }

  function Do(s: State, a: Action): State
    requires Enabled(s, a)
  {
    match a
    case StartJob(id) => s.(jobs := s.jobs[id := Job(s.revision, None, false)])
    case LookUp(id) =>
      if s.jobs[id].firstLookup.Some? then s
      else s.(jobs := s.jobs[id := s.jobs[id].(firstLookup := Some(s.changes))])
    case Record(id) => s.(jobs := s.jobs[id := s.jobs[id].(recorded := true)])
    case Begin => s.(rebuild := Writing(false))
    case Change => s.(changes := s.changes + 1, rebuild := Writing(true))
    case Raise => s.(revision := Next(s.revision), rebuild := Raised)
    case Store => s.(stored := s.revision, rebuild := Stored)
    case ReturnOk => s.(rebuild := Idle, committed := if s.rebuild == Stored then s.changes else s.committed)
    case ReturnErr => s.(rebuild := Idle)
    case Crash => s.(revision := s.stored, rebuild := Idle, jobs := Recorded(s.jobs))
  }

  // What must hold: a job that looked a font up before a change some rebuild returned Ok for has
  // recorded an older revision.
  predicate Fresh(s: State) {
    forall id :: id in s.jobs && s.jobs[id].firstLookup.Some? && s.jobs[id].firstLookup.value < s.committed ==>
      s.jobs[id].revision < s.revision
  }

  // ----- Runs -----

  // Two steps can do harm. A crash, when the database knows a job of a revision that is not stored
  // itself; a raise, when it leaves the revision at that of a job that looked its font up before.
  predicate Safe(s: State, a: Action) {
    && (a == Crash ==> forall id :: id in s.jobs && s.jobs[id].recorded ==> s.jobs[id].revision <= s.stored)
    && (a == Raise ==> forall id :: id in s.jobs && Before(s.jobs[id], s.changes) ==> s.jobs[id].revision < Next(s.revision))
  }

  // The job looked its first font up before that many changes.
  predicate Before(job: Job, changes: nat) {
    job.firstLookup.Some? && job.firstLookup.value < changes
  }

  predicate Inv(s: State) {
    && s.stored <= s.revision <= MAX && s.committed <= s.changes && Fresh(s)
    && (forall id :: id in s.jobs ==> s.jobs[id].revision <= s.revision && (s.jobs[id].recorded ==> s.jobs[id].firstLookup.Some?))
    && (forall id :: id in s.jobs && s.jobs[id].firstLookup.Some? ==> s.jobs[id].firstLookup.value <= s.changes)
    && (forall id :: id in s.jobs && Before(s.jobs[id], s.committed) ==> s.jobs[id].revision < s.stored)
    && (s.rebuild == Raised || s.rebuild == Stored ==>
          forall id :: id in s.jobs && Before(s.jobs[id], s.changes) ==> s.jobs[id].revision < s.revision)
    && (s.rebuild == Stored ==> s.stored == s.revision)
  }

  lemma StepKeepsInv(s: State, a: Action)
    requires Inv(s) && Enabled(s, a) && Safe(s, a)
    ensures Inv(Do(s, a))
  {
  }

  predicate Init(s: State) {
    s.jobs == map[] && s.rebuild == Idle && s.revision == s.stored <= MAX && s.committed <= s.changes
  }

  datatype Run = Run(states: seq<State>, actions: seq<Action>)

  ghost predicate IsPath(r: Run) {
    && |r.states| == |r.actions| + 1
    && forall i :: 0 <= i < |r.actions| ==>
         Enabled(r.states[i], r.actions[i]) && r.states[i + 1] == Do(r.states[i], r.actions[i])
  }

  ghost predicate IsRun(r: Run) {
    IsPath(r) && Init(r.states[0])
  }

  lemma {:induction false} PathKeepsInv(r: Run, k: nat)
    requires IsPath(r) && k < |r.states| && Inv(r.states[0])
    requires forall i :: 0 <= i < k ==> Safe(r.states[i], r.actions[i])
    ensures Inv(r.states[k])
    decreases k
  {
    hide Inv, Do, Enabled, Safe;
    if k > 0 {
      PathKeepsInv(r, k - 1);
      StepKeepsInv(r.states[k - 1], r.actions[k - 1]);
    }
  }

  /** No stale skip: along every safe run, crashes included, a job's lookups that precede a committed change make its revision old. */
  lemma NoStaleSkip(r: Run, k: nat)
    requires IsRun(r) && k < |r.states| && forall i :: 0 <= i < k ==> Safe(r.states[i], r.actions[i])
    ensures Inv(r.states[k]) && Fresh(r.states[k])
  {
    PathKeepsInv(r, k);
  }

  /**
    So no early return of the filter skips a partly converted file whose job looked a font up before
    a committed change.
  */
  lemma StaleIsConverted(r: Run, k: nat, id: nat, row: Row, active: bool, f: File, config: string)
    requires IsRun(r) && k < |r.states| && forall i :: 0 <= i < k ==> Safe(r.states[i], r.actions[i])
    requires id in r.states[k].jobs && row.status == Some(Partial) && row.revision == Some(AsI64(r.states[k].jobs[id].revision))
    requires Before(r.states[k].jobs[id], r.states[k].committed)
    ensures !Skips(Some(row), active, f, config, r.states[k].revision)
  {
    NoStaleSkip(r, k);
  }

  // ----- The condition is exact -----

  // A step on which nothing more goes wrong: no crash, and no raise at the largest revision.
  predicate Calm(s: State, a: Action) {
    a != Crash && (a == Raise ==> s.revision < MAX)
  }

  ghost predicate CalmlyReaches(first: State, last: State) {
    exists r: Run :: IsPath(r) && r.states[0] == first && r.states[|r.actions|] == last
      && forall i :: 0 <= i < |r.actions| ==> Calm(r.states[i], r.actions[i])
  }

  lemma CalmKeepsInv(first: State, last: State)
    requires Inv(first) && CalmlyReaches(first, last)
    ensures Inv(last)
  {
    var r: Run :| IsPath(r) && r.states[0] == first && r.states[|r.actions|] == last
      && forall i :: 0 <= i < |r.actions| ==> Calm(r.states[i], r.actions[i]);
    CalmIsSafe(r, |r.actions|);
  }

  lemma {:induction false} CalmIsSafe(r: Run, k: nat)
    requires IsPath(r) && k < |r.states| && Inv(r.states[0])
    requires forall i :: 0 <= i < |r.actions| ==> Calm(r.states[i], r.actions[i])
    ensures Inv(r.states[k])
    decreases k
  {
    if k > 0 {
      CalmIsSafe(r, k - 1);
      var s, a := r.states[k - 1], r.actions[k - 1];
      assert Calm(s, a) && Enabled(s, a) && r.states[k] == Do(s, a);
      hide Do, Enabled;
      assert Safe(s, a);
      hide Inv, Safe;
      StepKeepsInv(s, a);
    }
  }

  lemma CalmStart(s: State)
    ensures CalmlyReaches(s, s)
  {
    var r := Run([s], []);
    assert IsPath(r) && r.states[0] == s;
  }

  lemma CalmStep(first: State, s: State, a: Action)
    requires CalmlyReaches(first, s) && Enabled(s, a) && Calm(s, a)
    ensures CalmlyReaches(first, Do(s, a))
  {
    hide Enabled, Do, Calm;
    var r: Run :| IsPath(r) && r.states[0] == first && r.states[|r.actions|] == s
      && forall i :: 0 <= i < |r.actions| ==> Calm(r.states[i], r.actions[i]);
    var longer := Run(r.states + [Do(s, a)], r.actions + [a]);
    assert IsPath(longer) && longer.states[0] == first && longer.states[|longer.actions|] == Do(s, a);
  }

  // From a raised revision the rebuild returns Ok.
  lemma CommitsCalmly(first: State, s: State)
    requires CalmlyReaches(first, s) && s.rebuild == Raised
    ensures CalmlyReaches(first, s.(stored := s.revision, rebuild := Idle, committed := s.changes))
  {
    hide CalmlyReaches;
    CalmStep(first, s, Store);
    CalmStep(first, Do(s, Store), ReturnOk);
  }

  lemma UnsafeCrash(s: State) returns (stale: State)
    requires Inv(s) && !Safe(s, Crash)
    ensures CalmlyReaches(Do(s, Crash), stale) && !Fresh(stale)
  {
    var id :| id in s.jobs && s.jobs[id].recorded && s.jobs[id].revision > s.stored;
    var first := Do(s, Crash);
    CalmStart(first);
    hide CalmlyReaches, Inv;
    assert id in first.jobs && first.jobs[id] == s.jobs[id] && first.revision < MAX by { InvBounds(s, id); }
    var changed := Do(Do(first, Begin), Change);
    CalmStep(first, first, Begin);
    CalmStep(first, Do(first, Begin), Change);
    CalmStep(first, changed, Raise);
    CommitsCalmly(first, Do(changed, Raise));
    stale := State(s.stored + 1, s.stored + 1, s.changes + 1, s.changes + 1, Idle, first.jobs);
    InvBounds(s, id);
    StaleJob(stale, id);
  }

  lemma InvBounds(s: State, id: nat)
    requires Inv(s) && id in s.jobs
    ensures s.jobs[id].revision <= s.revision <= MAX
    ensures s.jobs[id].recorded ==> s.jobs[id].firstLookup.Some? && s.jobs[id].firstLookup.value <= s.changes
  {
  }

  lemma UnsafeRaise(s: State) returns (stale: State)
    requires Inv(s) && Enabled(s, Raise) && !Safe(s, Raise)
    ensures CalmlyReaches(Do(s, Raise), stale) && !Fresh(stale)
  {
    var id :| id in s.jobs && Before(s.jobs[id], s.changes) && s.jobs[id].revision >= Next(s.revision);
    var first := Do(s, Raise);
    CalmStart(first);
    hide CalmlyReaches, Inv;
    CommitsCalmly(first, first);
    stale := first.(stored := first.revision, rebuild := Idle, committed := first.changes);
    StaleJob(stale, id);
  }

  /**
    A step is safe exactly when nothing stale can come of it: whatever the service does afterwards,
    short of another crash or a raise at the largest revision, no stale lookup counts as current.
  */
  lemma SafeExact(s: State, a: Action)
    requires Inv(s) && Enabled(s, a)
    ensures Safe(s, a) <==> forall t :: CalmlyReaches(Do(s, a), t) ==> Fresh(t)
  {
    if Safe(s, a) {
      StepKeepsInv(s, a);
      hide Do, Enabled, Safe;
      forall t | CalmlyReaches(Do(s, a), t)
        ensures Fresh(t)
      {
        CalmKeepsInv(Do(s, a), t);
      }
    } else if a == Crash {
      var t := UnsafeCrash(s);
    } else {
      assert a == Raise;
      var t := UnsafeRaise(s);
    }
  }

  // ----- Where it fails -----

  function Last(r: Run): State
    requires |r.states| > 0
  {
    r.states[|r.states| - 1]
  }

  // Some run leads from the one state to the other.
  ghost predicate Reaches(first: State, last: State) {
    exists r: Run :: IsRun(r) && r.states[0] == first && Last(r) == last
  }

  lemma AtFirst(s: State)
    requires Init(s)
    ensures Reaches(s, s)
  {
    var r := Run([s], []);
    assert IsRun(r) && Last(r) == s;
  }

  lemma Extend(first: State, s: State, a: Action)
    requires Reaches(first, s) && Enabled(s, a)
    ensures Reaches(first, Do(s, a))
  {
    hide Enabled, Do, Init;
    var r: Run :| IsRun(r) && r.states[0] == first && Last(r) == s;
    var longer := Run(r.states + [Do(s, a)], r.actions + [a]);
    assert IsRun(longer) && longer.states[0] == first && Last(longer) == Do(s, a);
  }

  // A job looks a font up and records what it found.
  lemma Convert(first: State, s: State, id: nat)
    requires Reaches(first, s) && id !in s.jobs
    ensures Reaches(first, s.(jobs := s.jobs[id := Job(s.revision, Some(s.changes), true)]))
  {
    hide Reaches;
    var started := Do(s, StartJob(id));
    var found := Do(started, LookUp(id));
    Extend(first, s, StartJob(id));
    Extend(first, started, LookUp(id));
    Extend(first, found, Record(id));
    assert Do(found, Record(id)).jobs == s.jobs[id := Job(s.revision, Some(s.changes), true)];
  }

  // A rebuild that changes the index and returns Ok.
  lemma RebuildOk(first: State, s: State)
    requires Reaches(first, s) && s.rebuild == Idle
    ensures Reaches(first, State(Next(s.revision), Next(s.revision), s.changes + 1, s.changes + 1, Idle, s.jobs))
  {
    hide Reaches;
    var changed := Do(Do(s, Begin), Change);
    var stored := Do(Do(changed, Raise), Store);
    Extend(first, s, Begin);
    Extend(first, Do(s, Begin), Change);
    Extend(first, changed, Raise);
    Extend(first, Do(changed, Raise), Store);
    Extend(first, stored, ReturnOk);
  }

  // A rebuild that changes the index and raises the revision, but cannot store it.
  lemma RebuildUnstored(first: State, s: State)
    requires Reaches(first, s) && s.rebuild == Idle
    ensures Reaches(first, s.(revision := Next(s.revision), changes := s.changes + 1))
  {
    hide Reaches;
    var changed := Do(Do(s, Begin), Change);
    Extend(first, s, Begin);
    Extend(first, Do(s, Begin), Change);
    Extend(first, changed, Raise);
    Extend(first, Do(changed, Raise), ReturnErr);
  }

  /**
    Such a crash is reached from any start: a raise that was not stored is lost in a restart, the
    next change raises the revision to the number a job recorded before, and the job's stale lookup
    counts as current.
  */
  lemma StaleAfterCrash(s: State) returns (stale: State)
    requires Init(s) && s.revision < MAX
    ensures Reaches(s, stale) && stale.rebuild == Idle && !Fresh(stale)
  {
    AtFirst(s);
    hide Reaches, Fresh;
    var job := Job(s.revision + 1, Some(s.changes + 1), true);
    var jobs := map[1 := job];
    RebuildUnstored(s, s);
    var raised := s.(revision := s.revision + 1, changes := s.changes + 1);
    Convert(s, raised, 1);
    var recorded := raised.(jobs := raised.jobs[1 := job]);
    Extend(s, recorded, Crash);
    var restarted := Do(recorded, Crash);
    assert restarted.jobs == jobs;
    RebuildOk(s, restarted);
    stale := State(s.revision + 1, s.revision + 1, s.changes + 2, s.changes + 2, Idle, jobs);
    StaleJob(stale, 1);
  }

  lemma StaleJob(s: State, id: nat)
    requires id in s.jobs && s.jobs[id].firstLookup.Some? && s.jobs[id].firstLookup.value < s.committed
    requires s.jobs[id].revision >= s.revision
    ensures !Fresh(s)
  {
  }

  /** At the largest revision a raise changes nothing, and the property fails at the next change. */
  lemma StaleAtTheTop(s: State) returns (stale: State)
    requires Init(s) && s.revision == MAX
    ensures Reaches(s, stale) && stale.rebuild == Idle && !Fresh(stale)
  {
    AtFirst(s);
    hide Reaches, Fresh;
    Convert(s, s, 1);
    var recorded := s.(jobs := s.jobs[1 := Job(MAX, Some(s.changes), true)]);
    RebuildOk(s, recorded);
    stale := State(MAX, MAX, s.changes + 1, s.changes + 1, Idle, recorded.jobs);
    StaleJob(stale, 1);
  }
}
