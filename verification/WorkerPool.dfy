/**
  The pool of font workers: index tokens in a channel, leases that return them, and the request
  loop with its one retry. One action per channel, pipe or process operation; requests interleave
  in any way, and a worker may answer late, answer another request or be gone.
*/
module WorkerPool {

  // What a worker answers is a function of the payload; it is taken to be injective, so it is the payload.
  type Payload = nat

  datatype Response = Response(id: nat, ok: bool, value: Payload)

  // A worker process with its pipes; a killed one keeps what it wrote.
  datatype Worker = Worker(inbox: seq<nat>, outbox: seq<Response>, running: bool)

  const Fresh := Worker([], [], true)

  // Where a request stands; `attempt` is 0 or 1.
  datatype Pc =
    | Waiting
    | Leased(index: nat, attempt: nat)
    | Sent(index: nat, attempt: nat)
    | Restarting(index: nat, attempt: nat)
    | Returned(value: Payload)
    | Rejected

  datatype Request = Request(payload: Payload, pc: Pc, sends: nat, restarts: nat)

  datatype State = State(workers: seq<Worker>, queue: seq<nat>, requests: map<nat, Request>)

  datatype Action =
    | Submit(id: nat, payload: Payload)
    | Take(id: nat)
    | Send(id: nat)
    | SendFails(id: nat)
    | Serve(index: nat, ok: bool)
    | Receive(id: nat)
    | NoAnswer(id: nat)
    | Restart(id: nat)
    | RestartFails(id: nat)

  predicate HasLease(pc: Pc) {
    pc.Leased? || pc.Sent? || pc.Restarting?
  }

  function PcOf(s: State, id: nat): Pc {
    if id in s.requests then s.requests[id].pc else Rejected
  }

  predicate ValidLease(s: State, id: nat) {
    HasLease(PcOf(s, id)) && PcOf(s, id).index < |s.workers|
  }

  predicate Enabled(s: State, a: Action) {
    match a
    case Submit(id, _) => id !in s.requests
    case Take(id) => PcOf(s, id) == Waiting && id in s.requests && s.queue != []
    case Send(id) => PcOf(s, id).Leased? && ValidLease(s, id)
    case SendFails(id) => PcOf(s, id).Leased? && ValidLease(s, id)
    case Serve(index, _) => index < |s.workers| && s.workers[index].running && s.workers[index].inbox != []
                            && s.workers[index].inbox[0] in s.requests
    case Receive(id) => PcOf(s, id).Sent? && ValidLease(s, id) && s.workers[PcOf(s, id).index].outbox != []
    case NoAnswer(id) => PcOf(s, id).Sent? && ValidLease(s, id)
    case Restart(id) => PcOf(s, id).Restarting? && ValidLease(s, id)
    case RestartFails(id) => PcOf(s, id).Restarting? && ValidLease(s, id)
  }

  function To(s: State, id: nat, pc: Pc): State
    requires id in s.requests
  {
    s.(requests := s.requests[id := s.requests[id].(pc := pc)])
  }

  // The request ends, and its lease returns the worker's index to the channel.
  function End(s: State, id: nat, pc: Pc): State
    requires id in s.requests && HasLease(s.requests[id].pc)
  {
    To(s, id, pc).(queue := s.queue + [s.requests[id].pc.index])
  }

  // What one answer does: another request's answer is a failure of the transport.
  function Received(s: State, id: nat, r: Response): State
    requires id in s.requests && s.requests[id].pc.Sent?
  {
    var pc := s.requests[id].pc;
    if r.id != id then To(s, id, Restarting(pc.index, pc.attempt))
    else if r.ok then End(s, id, Returned(r.value))
    else End(s, id, Rejected)
  }

  function SetWorker(s: State, index: nat, w: Worker): State
    requires index < |s.workers|
  {
    s.(workers := s.workers[index := w])
  }

  // A restart is counted whether or not the new process starts.
  function CountRestart(s: State, id: nat): State
    requires id in s.requests
  {
    s.(requests := s.requests[id := s.requests[id].(restarts := s.requests[id].restarts + 1)])
  }

  function CountSend(s: State, id: nat): State
    requires id in s.requests
  {
    s.(requests := s.requests[id := s.requests[id].(sends := s.requests[id].sends + 1)])
  }

  function Do(s: State, a: Action): State
    requires Enabled(s, a)
  {
    match a
    case Submit(id, payload) => s.(requests := s.requests[id := Request(payload, Waiting, 0, 0)])
    case Take(id) => To(s, id, Leased(s.queue[0], 0)).(queue := s.queue[1..])
    case Send(id) =>
      var pc := s.requests[id].pc;
      var w := s.workers[pc.index];
      SetWorker(To(CountSend(s, id), id, Sent(pc.index, pc.attempt)), pc.index, w.(inbox := w.inbox + [id]))
    case SendFails(id) =>
      var pc := s.requests[id].pc;
      To(CountSend(s, id), id, Restarting(pc.index, pc.attempt))
    case Serve(index, ok) =>
      var w := s.workers[index];
      SetWorker(s, index, w.(inbox := w.inbox[1..],
                             outbox := w.outbox + [Response(w.inbox[0], ok, s.requests[w.inbox[0]].payload)]))
    case Receive(id) =>
      var pc := s.requests[id].pc;
      var w := s.workers[pc.index];
      Received(SetWorker(s, pc.index, w.(outbox := w.outbox[1..])), id, w.outbox[0])
    case NoAnswer(id) =>
      var pc := s.requests[id].pc;
      To(s, id, Restarting(pc.index, pc.attempt))
    case Restart(id) =>
      var pc := s.requests[id].pc;
      var s1 := CountRestart(SetWorker(s, pc.index, Fresh), id);
      if pc.attempt == 0 then To(s1, id, Leased(pc.index, 1)) else End(s1, id, Rejected)
    case RestartFails(id) =>
      var pc := s.requests[id].pc;
      End(CountRestart(SetWorker(s, pc.index, s.workers[pc.index].(running := false)), id), id, Rejected)
  }

  // ----- The invariant -----

  predicate Leases(s: State, id: nat, index: nat) {
    id in s.requests && HasLease(s.requests[id].pc) && s.requests[id].pc.index == index
  }

  // Every index is in the channel once or with one lease, never both, never lost.
  ghost predicate OnePlace(s: State) {
    && (forall a, b :: 0 <= a < b < |s.queue| ==> s.queue[a] != s.queue[b])
    && (forall i :: i in s.queue ==> i < |s.workers|)
    && (forall id: nat, index: nat :: Leases(s, id, index) ==> index < |s.workers| && index !in s.queue)
    && (forall id: nat, other: nat, index: nat :: Leases(s, id, index) && Leases(s, other, index) ==> id == other)
    && (forall index :: 0 <= index < |s.workers| && index !in s.queue ==> exists id: nat :: Leases(s, id, index))
  }

  // Every answer in a pipe is the answer to the request whose id it carries.
  predicate Honest(s: State, w: Worker) {
    && (forall k :: 0 <= k < |w.inbox| ==> w.inbox[k] in s.requests)
    && (forall k :: 0 <= k < |w.outbox| ==> w.outbox[k].id in s.requests && w.outbox[k].value == s.requests[w.outbox[k].id].payload)
  }

  predicate Answers(s: State) {
    && (forall i :: 0 <= i < |s.workers| ==> Honest(s, s.workers[i]))
    && (forall id :: id in s.requests && s.requests[id].pc.Returned? ==> s.requests[id].pc.value == s.requests[id].payload)
  }

  // At most one send and one restart for each attempt.
  predicate Counted(r: Request) {
    match r.pc
    case Waiting => r.sends == 0 && r.restarts == 0
    case Leased(_, attempt) => attempt <= 1 && r.sends == attempt && r.restarts == attempt
    case Sent(_, attempt) => attempt <= 1 && r.sends == attempt + 1 && r.restarts == attempt
    case Restarting(_, attempt) => attempt <= 1 && r.sends == attempt + 1 && r.restarts == attempt
    case Returned(_) => 1 <= r.sends <= 2 && r.restarts == r.sends - 1
    case Rejected => 1 <= r.sends <= 2 && r.sends - 1 <= r.restarts <= r.sends
  }

  predicate AllCounted(s: State) {
    forall id :: id in s.requests ==> Counted(s.requests[id])
  }

  ghost predicate Inv(s: State) {
    OnePlace(s) && Answers(s) && AllCounted(s)
  }

  lemma CountedKept(s: State, a: Action)
    requires AllCounted(s) && Enabled(s, a)
    ensures AllCounted(Do(s, a))
  {
  }

  lemma PayloadsStay(s: State, a: Action)
    requires Enabled(s, a)
    ensures forall id :: id in s.requests ==> id in Do(s, a).requests && Do(s, a).requests[id].payload == s.requests[id].payload
    ensures |Do(s, a).workers| == |s.workers|
  {
  }

  // One step of one worker's pipes.
  lemma PipeKept(s: State, a: Action, i: nat)
    requires Enabled(s, a) && i < |s.workers| && Honest(s, s.workers[i])
    ensures i < |Do(s, a).workers| && Honest(Do(s, a), Do(s, a).workers[i])
  {
    PayloadsStay(s, a);
  }

  lemma ReturnedKept(s: State, a: Action, id: nat)
    requires Answers(s) && Enabled(s, a) && id in Do(s, a).requests && Do(s, a).requests[id].pc.Returned?
    ensures Do(s, a).requests[id].pc.value == Do(s, a).requests[id].payload
  {
    if a.Receive? {
      var w := s.workers[s.requests[a.id].pc.index];
      assert Honest(s, w);
    }
  }

  lemma AnswersKept(s: State, a: Action)
    requires Answers(s) && Enabled(s, a)
    ensures Answers(Do(s, a))
  {
    hide Do, Honest, Enabled;
    var s' := Do(s, a);
    PayloadsStay(s, a);
    forall i | 0 <= i < |s'.workers|
      ensures Honest(s', s'.workers[i])
    {
      PipeKept(s, a, i);
    }
    forall id | id in s'.requests && s'.requests[id].pc.Returned?
      ensures s'.requests[id].pc.value == s'.requests[id].payload
    {
      ReturnedKept(s, a, id);
    }
  }

  // Nobody gets or gives back an index.
  lemma SameLeases(s: State, s': State)
    requires OnePlace(s) && s'.queue == s.queue && |s'.workers| == |s.workers|
    requires forall id: nat, index: nat :: Leases(s', id, index) <==> Leases(s, id, index)
    ensures OnePlace(s')
  {
    forall index | 0 <= index < |s'.workers| && index !in s'.queue
      ensures exists id: nat :: Leases(s', id, index)
    {
      var id: nat :| Leases(s, id, index);
      assert Leases(s', id, index);
    }
  }

  lemma TakeKept(s: State, id: nat)
    requires OnePlace(s) && Enabled(s, Take(id))
    ensures OnePlace(Do(s, Take(id)))
  {
    var s', first := Do(s, Take(id)), s.queue[0];
    assert s.queue == [first] + s'.queue && |s'.workers| == |s.workers|;
    assert forall i :: i in s.queue <==> i == first || i in s'.queue;
    assert first !in s'.queue by {
      assert forall b :: 0 <= b < |s'.queue| ==> s'.queue[b] == s.queue[b + 1];
    }
    assert Leases(s', id, first);
    forall other: nat, index: nat
      ensures Leases(s', other, index) <==> Leases(s, other, index) || (other == id && index == first)
    {
    }
    hide Leases, Do;
    forall index | 0 <= index < |s'.workers| && index !in s'.queue
      ensures exists other: nat :: Leases(s', other, index)
    {
      if index != first {
        var other: nat :| Leases(s, other, index);
        assert Leases(s', other, index);
      }
    }
    assert forall a, b :: 0 <= a < b < |s'.queue| ==> s'.queue[a] == s.queue[a + 1] && s'.queue[b] == s.queue[b + 1];
  }

  lemma EndKept(s: State, id: nat, pc: Pc)
    requires OnePlace(s) && id in s.requests && HasLease(s.requests[id].pc) && !HasLease(pc)
    ensures OnePlace(End(s, id, pc))
  {
    var s', freed := End(s, id, pc), s.requests[id].pc.index;
    assert Leases(s, id, freed);
    forall other: nat, index: nat
      ensures Leases(s', other, index) <==> Leases(s, other, index) && other != id
    {
    }
    hide Leases;
    forall index | 0 <= index < |s'.workers| && index !in s'.queue
      ensures exists other: nat :: Leases(s', other, index)
    {
      assert index != freed && index !in s.queue;
      var other: nat :| Leases(s, other, index);
      assert Leases(s', other, index);
    }
    assert forall i :: i in s'.queue <==> i in s.queue || i == freed;
  }

  lemma OnePlaceKept(s: State, a: Action)
    requires OnePlace(s) && Enabled(s, a)
    ensures OnePlace(Do(s, a))
  {
    hide OnePlace;
    match a
    case Submit(id, _) => SameLeases(s, Do(s, a));
    case Take(id) => TakeKept(s, id);
    case Send(id) => SameLeases(s, Do(s, a));
    case SendFails(id) => SameLeases(s, Do(s, a));
    case Serve(_, _) => SameLeases(s, Do(s, a));
    case Receive(id) =>
      var pc := s.requests[id].pc;
      var w := s.workers[pc.index];
      var s1 := SetWorker(s, pc.index, w.(outbox := w.outbox[1..]));
      SameLeases(s, s1);
      if w.outbox[0].id != id {
        SameLeases(s1, Do(s, a));
      } else {
        EndKept(s1, id, if w.outbox[0].ok then Returned(w.outbox[0].value) else Rejected);
      }
    case NoAnswer(id) => SameLeases(s, Do(s, a));
    case Restart(id) =>
      var pc := s.requests[id].pc;
      var s1 := CountRestart(SetWorker(s, pc.index, Fresh), id);
      SameLeases(s, s1);
      if pc.attempt == 0 {
        SameLeases(s1, Do(s, a));
      } else {
        EndKept(s1, id, Rejected);
      }
    case RestartFails(id) =>
      var pc := s.requests[id].pc;
      var s1 := CountRestart(SetWorker(s, pc.index, s.workers[pc.index].(running := false)), id);
      SameLeases(s, s1);
      EndKept(s1, id, Rejected);
  }

  // ----- Runs -----

  // The pool as it starts: fresh workers, every index in the channel once.
  predicate Init(s: State) {
    && s.requests == map[] && |s.queue| == |s.workers|
    && (forall i :: 0 <= i < |s.workers| ==> s.queue[i] == i && s.workers[i] == Fresh)
  }

  datatype Run = Run(states: seq<State>, actions: seq<Action>)

  ghost predicate IsRun(r: Run) {
    && |r.states| == |r.actions| + 1 && Init(r.states[0])
    && forall i :: 0 <= i < |r.actions| ==>
         Enabled(r.states[i], r.actions[i]) && r.states[i + 1] == Do(r.states[i], r.actions[i])
  }

  lemma InitHolds(s: State)
    requires Init(s)
    ensures Inv(s)
  {
    forall i | 0 <= i < |s.workers|
      ensures i in s.queue
    {
      assert s.queue[i] == i;
    }
  }

  lemma {:induction false} RunHolds(r: Run, i: nat)
    requires IsRun(r) && i < |r.states|
    ensures Inv(r.states[i])
    decreases i
  {
    hide OnePlace, Answers, AllCounted, Do, Enabled, Init;
    if i == 0 {
      InitHolds(r.states[0]);
    } else {
      RunHolds(r, i - 1);
      OnePlaceKept(r.states[i - 1], r.actions[i - 1]);
      AnswersKept(r.states[i - 1], r.actions[i - 1]);
      CountedKept(r.states[i - 1], r.actions[i - 1]);
    }
  }

  /** No index is lost or doubled: each is in the channel or with exactly one lease. */
  lemma IndexInOnePlace(r: Run, i: nat, index: nat)
    requires IsRun(r) && i < |r.states| && index < |r.states[i].workers|
    ensures var s := r.states[i];
            index in s.queue <==> forall id: nat :: !Leases(s, id, index)
    ensures forall id: nat, other: nat :: Leases(r.states[i], id, index) && Leases(r.states[i], other, index) ==> id == other
  {
    RunHolds(r, i);
    hide Answers, AllCounted, IsRun, Leases;
  }

  /** A returned value is the answer to this very request, after time-outs and failed restarts too. */
  lemma RightAnswer(r: Run, i: nat, id: nat)
    requires IsRun(r) && i < |r.states| && id in r.states[i].requests && r.states[i].requests[id].pc.Returned?
    ensures r.states[i].requests[id].pc.value == r.states[i].requests[id].payload
  {
    RunHolds(r, i);
  }

  /** A request makes at most two sends and two restarts, and returns after fewer restarts than sends. */
  lemma AtMostTwo(r: Run, i: nat, id: nat)
    requires IsRun(r) && i < |r.states| && id in r.states[i].requests
    ensures var q := r.states[i].requests[id];
            q.sends <= 2 && q.restarts <= 2 && (q.pc.Returned? ==> q.restarts == q.sends - 1)
  {
    RunHolds(r, i);
    assert Counted(r.states[i].requests[id]);
  }

  // ----- What decides a request -----

  // The answer at the front of the pipe of the worker a request has sent to.
  function NextAnswer(s: State, id: nat): Response
    requires Enabled(s, Receive(id))
  {
    s.workers[PcOf(s, id).index].outbox[0]
  }

  /**
    A request returns in one step only: by reading an answer with its own id that says ok, and then
    with the value of that answer.
  */
  lemma ReturnedBy(s: State, a: Action, id: nat)
    requires Enabled(s, a) && !PcOf(s, id).Returned?
    ensures PcOf(Do(s, a), id).Returned? <==> a == Receive(id) && NextAnswer(s, id).id == id && NextAnswer(s, id).ok
    ensures PcOf(Do(s, a), id).Returned? ==> PcOf(Do(s, a), id).value == NextAnswer(s, id).value
  {
  }

  /**
    A request is rejected by an answer of its own that says no, by a worker that does not come back,
    or by a restart after its second attempt, and by nothing else.
  */
  lemma RejectedBy(s: State, a: Action, id: nat)
    requires Enabled(s, a) && id in s.requests && s.requests[id].pc != Rejected
    ensures PcOf(Do(s, a), id) == Rejected <==>
              || (a == Receive(id) && NextAnswer(s, id).id == id && !NextAnswer(s, id).ok)
              || a == RestartFails(id)
              || (a == Restart(id) && s.requests[id].pc.attempt != 0)
  {
  }

  /** Another request's answer, a failed send and a missing answer all lead to a restart, and the restart to the second attempt. */
  lemma FailureRestarts(s: State, a: Action, id: nat)
    requires Enabled(s, a) && id in s.requests
    requires a == SendFails(id) || a == NoAnswer(id) || (a == Receive(id) && NextAnswer(s, id).id != id)
    ensures PcOf(Do(s, a), id) == Restarting(s.requests[id].pc.index, s.requests[id].pc.attempt)
    ensures var after := Do(s, a);
            Enabled(after, Restart(id))
            && (s.requests[id].pc.attempt == 0 ==> PcOf(Do(after, Restart(id)), id) == Leased(s.requests[id].pc.index, 1))
            && Do(after, Restart(id)).workers[s.requests[id].pc.index] == Worker([], [], true)
  {
  }

  // ----- No request is stuck -----

  function Stage(pc: Pc): nat {
    match pc
    case Waiting => 0
    case Leased(_, attempt) => 1 + 3 * attempt
    case Sent(_, attempt) => 2 + 3 * attempt
    case Restarting(_, attempt) => 3 + 3 * attempt
    case Returned(_) => 7
    case Rejected => 7
  }

  predicate OfRequest(a: Action, id: nat) {
    a in {Take(id), Send(id), SendFails(id), Receive(id), NoAnswer(id), Restart(id), RestartFails(id)}
  }

  /** Every step of a request takes it further, and nothing else moves it: at most seven steps lead to its end. */
  lemma StepsForward(s: State, a: Action, id: nat)
    requires Inv(s) && Enabled(s, a) && id in s.requests
    ensures id in Do(s, a).requests && Stage(Do(s, a).requests[id].pc) <= 7
    ensures if OfRequest(a, id) then Stage(Do(s, a).requests[id].pc) > Stage(s.requests[id].pc)
            else Do(s, a).requests[id] == s.requests[id]
  {
    hide OnePlace, Answers;
    assert Counted(s.requests[id]);
  }

  /**
    No request is stuck: with a lease it can go on without any answer, whatever its worker does, and
    every operation it waits for may fail; without one a worker is free, or another request has it.
  */
  lemma NeverStuck(s: State, id: nat)
    requires Inv(s) && s.workers != [] && id in s.requests && Stage(s.requests[id].pc) < 7
    ensures s.requests[id].pc == Waiting ==>
              Enabled(s, Take(id)) || exists other: nat :: other in s.requests && HasLease(s.requests[other].pc)
    ensures s.requests[id].pc.Leased? ==> Enabled(s, Send(id)) && Enabled(s, SendFails(id))
    ensures s.requests[id].pc.Sent? ==>
              Enabled(s, NoAnswer(id)) && (Enabled(s, Receive(id)) <==> s.workers[s.requests[id].pc.index].outbox != [])
    ensures s.requests[id].pc.Restarting? ==> Enabled(s, Restart(id)) && Enabled(s, RestartFails(id))
  {
    if HasLease(s.requests[id].pc) {
      assert Leases(s, id, s.requests[id].pc.index);
    } else if s.queue == [] {
      assert 0 !in s.queue;
      var other: nat :| Leases(s, other, 0);
    }
  }
}
