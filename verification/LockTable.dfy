/**
  The table of per-key cache mutexes: it holds weak references only, drops dead ones on every
  access and makes new mutexes on demand.
*/
module LockTable {

  // `locks` is the table of weak references; `strong` counts the handles of every mutex made so far.
  datatype Table = Table(locks: map<string, nat>, strong: seq<nat>, keys: seq<string>)

  const NoLocks := Table(map[], [], [])

  predicate Alive(t: Table, id: nat) {
    id < |t.strong| && t.strong[id] > 0
  }

  function Retained(t: Table): map<string, nat> {
    map k | k in t.locks && Alive(t, t.locks[k]) :: t.locks[k]
  }

  // `cache_lock`: the live mutex of the key, or a new one; the caller gets a handle.
  function Acquired(t: Table, key: string): (r: (Table, nat)) {
    var locks := Retained(t);
    if key in locks then
      (Table(locks, t.strong[locks[key] := t.strong[locks[key]] + 1], t.keys), locks[key])
    else (Table(locks[key := |t.strong|], t.strong + [1], t.keys + [key]), |t.strong|)
  }

  datatype Op = Acquire(key: string) | Clone(id: nat) | Drop(id: nat)

  // Only a live handle can be cloned or dropped.
  predicate Allowed(t: Table, op: Op) {
    op.Acquire? || Alive(t, op.id)
  }

  function Do(t: Table, op: Op): Table
    requires Allowed(t, op)
  {
    match op
    case Acquire(key) => Acquired(t, key).0
    case Clone(id) => t.(strong := t.strong[id := t.strong[id] + 1])
    case Drop(id) => t.(strong := t.strong[id := t.strong[id] - 1])
  }

  // Every live mutex is the one the table holds for its key.
  predicate Valid(t: Table) {
    && |t.keys| == |t.strong|
    && (forall k :: k in t.locks ==> t.locks[k] < |t.keys| && t.keys[t.locks[k]] == k)
    && (forall id :: 0 <= id < |t.strong| && Alive(t, id) ==> t.keys[id] in t.locks && t.locks[t.keys[id]] == id)
  }

  lemma StepKeepsValid(t: Table, op: Op)
    requires Valid(t) && Allowed(t, op)
    ensures Valid(Do(t, op))
  {
  }

  // A run of acquisitions, clones and drops.
  ghost predicate IsRun(tables: seq<Table>, ops: seq<Op>) {
    && |tables| == |ops| + 1 && tables[0] == NoLocks
    && forall i :: 0 <= i < |ops| ==> Allowed(tables[i], ops[i]) && tables[i + 1] == Do(tables[i], ops[i])
  }

  lemma {:induction false} RunIsValid(tables: seq<Table>, ops: seq<Op>, i: nat)
    requires IsRun(tables, ops) && i < |tables|
    ensures Valid(tables[i])
    decreases i
  {
    hide Do, Valid, Allowed;
    if i == 0 {
      assert Valid(NoLocks) by { EmptyIsValid(); }
    } else {
      RunIsValid(tables, ops, i - 1);
      StepKeepsValid(tables[i - 1], ops[i - 1]);
    }
  }

  lemma EmptyIsValid()
    ensures Valid(NoLocks)
  {
  }

  /**
    One live mutex per key: at any point of any run, two live mutexes of the same key are the same
    mutex, and an acquisition hands out the mutex every other holder of the key holds.
  */
  lemma OneMutexPerKey(tables: seq<Table>, ops: seq<Op>, i: nat, a: nat, b: nat)
    requires IsRun(tables, ops) && i < |tables| && Alive(tables[i], a) && Alive(tables[i], b)
    ensures |tables[i].keys| == |tables[i].strong|
    ensures tables[i].keys[a] == tables[i].keys[b] ==> a == b
    ensures Acquired(tables[i], tables[i].keys[a]).1 == a
  {
    RunIsValid(tables, ops, i);
  }

  /** A handle stays a handle of its key's mutex until the last one is dropped. */
  lemma HandleStays(t: Table, op: Op, id: nat)
    requires Valid(t) && Allowed(t, op) && Alive(t, id) && op != Drop(id)
    ensures Alive(Do(t, op), id) && |Do(t, op).keys| > id && |t.keys| > id && Do(t, op).keys[id] == t.keys[id]
  {
  }

  // `AppState::cache_locks`, with the mutexes' handle counts beside it.
  class CacheLocks {
    var locks: map<string, nat>
    var strong: seq<nat>
    var keys: seq<string>

    ghost function Value(): Table
      reads this
    {
      Table(locks, strong, keys)
    }

    constructor ()
      ensures Value() == NoLocks
    {
      locks, strong, keys := map[], [], [];
    }

    method CacheLock(key: string) returns (id: nat)
      requires Valid(Value())
      modifies this
      ensures Valid(Value()) && (Value(), id) == Acquired(old(Value()), key)
      ensures Alive(Value(), id) && keys[id] == key
    {
      StepKeepsValid(Value(), Acquire(key));
      ghost var before := Value();
      locks := map k | k in locks && locks[k] < |strong| && strong[locks[k]] > 0 :: locks[k];
      assert locks == Retained(before);
      if key in locks {
        id := locks[key];
        strong := strong[id := strong[id] + 1];
        return;
      }
      id := |strong|;
      strong := strong + [1];
      keys := keys + [key];
      locks := locks[key := id];
    }

    // A handle goes out of scope.
    method Release(id: nat)
      requires Valid(Value()) && Alive(Value(), id)
      modifies this
      ensures Valid(Value()) && Value() == Do(old(Value()), Drop(id))
    {
      StepKeepsValid(Value(), Drop(id));
      strong := strong[id := strong[id] - 1];
    }
  }
}
