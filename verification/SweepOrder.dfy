/**
  Eviction by age and quota is one of the sweeps of the cache protocol.
*/
module SweepOrder {
  import opened CacheProtocol
  import CacheMaintenance

  type Entry = CacheMaintenance.Entry
  type Outcome = CacheMaintenance.Outcome

  ghost predicate IsPath(r: Run) {
    && |r.states| == |r.actions| + 1
    && forall i :: 0 <= i < |r.actions| ==>
         Enabled(r.states[i], r.actions[i]) && r.states[i + 1] == Do(r.states[i], r.actions[i])
  }

  ghost predicate Leads(first: State, last: State) {
    exists r: Run :: IsPath(r) && r.states[0] == first && r.states[|r.actions|] == last
  }

  lemma Stays(s: State)
    ensures Leads(s, s)
  {
    var r := Run([s], []);
    assert IsPath(r) && r.states[0] == s;
  }

  lemma Extend(first: State, s: State, a: Action)
    requires Leads(first, s) && Enabled(s, a)
    ensures Leads(first, Do(s, a))
  {
    hide Enabled, Do;
    var r: Run :| IsPath(r) && r.states[0] == first && r.states[|r.actions|] == s;
    var longer := Run(r.states + [Do(s, a)], r.actions + [a]);
    assert IsPath(longer) && longer.states[0] == first && longer.states[|longer.actions|] == Do(s, a);
  }

  // The names of the first `k` entries, and of those of them that were removed.
  function Names(entries: seq<Entry>, k: nat): set<string>
    requires k <= |entries|
  {
    set i | 0 <= i < k :: entries[i].name
  }

  function RemovedNames(entries: seq<Entry>, outcomes: seq<Outcome>, k: nat): set<string>
    requires k <= |entries| && k <= |outcomes|
  {
    set i | 0 <= i < k && (outcomes[i].Removed? || outcomes[i].Gone?) :: entries[i].name
  }

  // The directory scan found these entries.
  predicate Scanning(s: State, entries: seq<Entry>) {
    && s.sweep.Scanned? && (forall i, j :: 0 <= i < j < |entries| ==> entries[i].name != entries[j].name)
    && (forall i :: 0 <= i < |entries| ==>
          entries[i].name in s.sweep.left && s.sweep.left[entries[i].name] == entries[i].size && LockKey(entries[i].name).Some?)
  }

  // What trying an entry comes to in this state: locked exactly when somebody holds its key.
  predicate Happens(s: State, entries: seq<Entry>, outcomes: seq<Outcome>) {
    && |outcomes| == |entries|
    && (forall i :: 0 <= i < |entries| && LockKey(entries[i].name).Some? ==>
          && (outcomes[i].Locked? <==> LockKey(entries[i].name).value in s.keys)
          && (outcomes[i].Removed? ==> entries[i].name in s.files) && (outcomes[i].Gone? ==> entries[i].name !in s.files))
  }

  // The state after the first `k` entries were tried in order.
  ghost function After(s: State, entries: seq<Entry>, outcomes: seq<Outcome>, k: nat): State
    requires s.sweep.Scanned? && k <= |entries| && k <= |outcomes|
  {
    s.(files := s.files - RemovedNames(entries, outcomes, k),
       sweep := Scanned(s.sweep.left - Names(entries, k), s.sweep.bytes - CacheMaintenance.Freed(entries, outcomes, k)))
  }

  /**
    Trying the entries in any order that eviction picks, as far as it gets, is a run of the protocol:
    it leaves the files that were not removed, the byte count eviction arrives at, and every key as
    it was.
  */
  lemma {:induction false} EvictionIsSweep(s: State, entries: seq<Entry>, outcomes: seq<Outcome>, tried: nat)
    requires Scanning(s, entries) && Happens(s, entries, outcomes) && tried <= |entries|
    ensures Leads(s, After(s, entries, outcomes, tried))
    decreases tried
  {
    if tried == 0 {
      Stays(s);
      assert s.files - {} == s.files && s.sweep.left - {} == s.sweep.left;
      assert After(s, entries, outcomes, 0) == s;
    } else {
      EvictionIsSweep(s, entries, outcomes, tried - 1);
      TryOne(s, entries, outcomes, tried - 1);
    }
  }

  // What trying one entry changes.
  lemma AfterOne(s: State, entries: seq<Entry>, outcomes: seq<Outcome>, k: nat)
    requires Scanning(s, entries) && |outcomes| == |entries| && k < |entries|
    ensures var t, e, gone := After(s, entries, outcomes, k), entries[k], outcomes[k].Removed? || outcomes[k].Gone?;
            && t.keys == s.keys && t.sweep.Scanned? && e.name in t.sweep.left && t.sweep.left[e.name] == e.size
            && After(s, entries, outcomes, k + 1)
               == t.(files := if gone then t.files - {e.name} else t.files,
                     sweep := Scanned(t.sweep.left - {e.name}, t.sweep.bytes - if gone then e.size else 0))
  {
    NamesGrow(entries, outcomes, k);
    var e := entries[k];
    var removed := RemovedNames(entries, outcomes, k);
    hide LockKey, RemovedNames, Names;
    assert s.files - (removed + {e.name}) == (s.files - removed) - {e.name} && removed + {} == removed;
    assert s.sweep.left - (Names(entries, k) + {e.name}) == (s.sweep.left - Names(entries, k)) - {e.name};
  }

  // Skipping, keeping or removing an entry of a sweep.
  lemma TrySteps(first: State, t: State, name: string, o: Outcome)
    requires Leads(first, t) && t.sweep.Scanned? && name in t.sweep.left && LockKey(name).Some?
    requires o.Locked? <==> LockKey(name).value in t.keys
    ensures var gone := o.Removed? || o.Gone?;
            Leads(first, t.(files := if gone then t.files - {name} else t.files,
                            sweep := Scanned(t.sweep.left - {name}, t.sweep.bytes - if gone then t.sweep.left[name] else 0)))
  {
    hide Leads, LockKey;
    if o.Locked? {
      Extend(first, t, Skip(name));
    } else {
      TryUnlocked(first, t, name, o.Failed?);
    }
  }

  lemma TryUnlocked(first: State, t: State, name: string, fails: bool)
    requires Leads(first, t) && t.sweep.Scanned? && name in t.sweep.left && LockKey(name).Some?
    requires LockKey(name).value !in t.keys
    ensures Leads(first, t.(files := if fails then t.files else t.files - {name},
                            sweep := Scanned(t.sweep.left - {name}, t.sweep.bytes - if fails then 0 else t.sweep.left[name])))
  {
    var key := LockKey(name).value;
    hide Leads, LockKey;
    Extend(first, t, TryLock(name));
    var trying := Do(t, TryLock(name));
    assert trying.keys - {key} == t.keys;
    Extend(first, trying, if fails then Keep else Remove);
  }

  lemma {:induction false} TryOne(s: State, entries: seq<Entry>, outcomes: seq<Outcome>, k: nat)
    requires Scanning(s, entries) && Happens(s, entries, outcomes) && k < |entries|
    requires Leads(s, After(s, entries, outcomes, k))
    ensures Leads(s, After(s, entries, outcomes, k + 1))
  {
    AfterOne(s, entries, outcomes, k);
    hide Leads, LockKey, After;
    TrySteps(s, After(s, entries, outcomes, k), entries[k].name, outcomes[k]);
  }

  lemma NamesGrow(entries: seq<Entry>, outcomes: seq<Outcome>, k: nat)
    requires k < |entries| && k < |outcomes| && forall i, j :: 0 <= i < j < |entries| ==> entries[i].name != entries[j].name
    ensures Names(entries, k + 1) == Names(entries, k) + {entries[k].name} && entries[k].name !in Names(entries, k)
    ensures RemovedNames(entries, outcomes, k + 1)
            == RemovedNames(entries, outcomes, k) + if outcomes[k].Removed? || outcomes[k].Gone? then {entries[k].name} else {}
  {
  }
}
