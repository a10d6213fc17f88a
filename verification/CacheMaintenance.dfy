/**
  Eviction: which cache files one maintenance pass removes, oldest first, and what its byte count
  is afterwards.
*/
module CacheMaintenance {

  datatype Entry = Entry(name: string, size: nat, lastUsed: int)

  // What trying to evict an entry comes to: its key was locked, the file was removed, it was
  // already gone, or removing it failed.
  datatype Outcome = Locked | Removed | Gone | Failed

  const U64: nat := 0x1_0000_0000_0000_0000

  function SaturatingMul(a: nat, b: nat): nat {
    if a * b < U64 then a * b else U64 - 1
  }

  function Target(maxBytes: nat): nat {
    SaturatingMul(maxBytes, 90) / 100
  }

  function Total(entries: seq<Entry>): nat {
    if entries == [] then 0 else entries[0].size + Total(entries[1..])
  }

  // The bytes of those among the first `k` tries that came to one of `which`.
  function BytesOf(entries: seq<Entry>, outcomes: seq<Outcome>, k: nat, which: set<Outcome>): nat
    requires k <= |entries| && k <= |outcomes|
  {
    if k == 0 then 0
    else BytesOf(entries, outcomes, k - 1, which) + if outcomes[k - 1] in which then entries[k - 1].size else 0
  }

  function Freed(entries: seq<Entry>, outcomes: seq<Outcome>, k: nat): nat
    requires k <= |entries| && k <= |outcomes|
  {
    BytesOf(entries, outcomes, k, {Removed, Gone})
  }

  function RemovedCount(outcomes: seq<Outcome>, k: nat): (n: nat)
    requires k <= |outcomes|
    ensures n <= k
  {
    if k == 0 then 0 else RemovedCount(outcomes, k - 1) + if outcomes[k - 1] == Removed then 1 else 0
  }

  predicate OldestFirst(entries: seq<Entry>) {
    forall i, j :: 0 <= i < j < |entries| ==> entries[i].lastUsed <= entries[j].lastUsed
  }

  lemma {:induction false} TotalAppend(a: seq<Entry>, b: seq<Entry>)
    ensures Total(a + b) == Total(a) + Total(b)
  {
    if a == [] {
      assert a + b == b;
    } else {
      assert (a + b)[1..] == a[1..] + b;
      TotalAppend(a[1..], b);
    }
  }

  // `sort_unstable_by_key` by last use; in which order equal entries come does not matter below.
  function Insert(e: Entry, sorted: seq<Entry>): seq<Entry> {
    if sorted == [] || e.lastUsed <= sorted[0].lastUsed then [e] + sorted else [sorted[0]] + Insert(e, sorted[1..])
  }

  function ByAge(entries: seq<Entry>): seq<Entry> {
    if entries == [] then [] else Insert(entries[0], ByAge(entries[1..]))
  }

  lemma {:induction false} InsertSorted(e: Entry, sorted: seq<Entry>)
    requires OldestFirst(sorted)
    ensures OldestFirst(Insert(e, sorted))
    ensures Insert(e, sorted)[0].lastUsed == if sorted == [] || e.lastUsed <= sorted[0].lastUsed then e.lastUsed else sorted[0].lastUsed
  {
    if sorted != [] && e.lastUsed > sorted[0].lastUsed {
      InsertSorted(e, sorted[1..]);
    }
  }

  lemma {:induction false} InsertKeeps(e: Entry, sorted: seq<Entry>)
    ensures Total(Insert(e, sorted)) == e.size + Total(sorted)
    ensures multiset(Insert(e, sorted)) == multiset(sorted) + multiset{e}
  {
    if sorted != [] && e.lastUsed > sorted[0].lastUsed {
      InsertKeeps(e, sorted[1..]);
      assert sorted == [sorted[0]] + sorted[1..];
    }
  }

  lemma {:induction false} ByAgeSorted(entries: seq<Entry>)
    ensures OldestFirst(ByAge(entries))
  {
    if entries != [] {
      ByAgeSorted(entries[1..]);
      hide OldestFirst, Insert;
      InsertSorted(entries[0], ByAge(entries[1..]));
    }
  }

  /** Sorting keeps the entries and their bytes, and puts the oldest first. */
  lemma {:induction false} ByAgeKeeps(entries: seq<Entry>)
    ensures OldestFirst(ByAge(entries)) && multiset(ByAge(entries)) == multiset(entries)
    ensures Total(ByAge(entries)) == Total(entries) && |ByAge(entries)| == |entries|
  {
    ByAgeSorted(entries);
    hide OldestFirst, Insert;
    if entries != [] {
      ByAgeKeeps(entries[1..]);
      InsertKeeps(entries[0], ByAge(entries[1..]));
      assert entries == [entries[0]] + entries[1..];
    }
    assert |multiset(ByAge(entries))| == |multiset(entries)|;
  }

  lemma {:induction false} FreedAtMost(entries: seq<Entry>, outcomes: seq<Outcome>, k: nat)
    requires k <= |entries| && k <= |outcomes|
    ensures Freed(entries, outcomes, k) <= Total(entries[..k])
    decreases k
  {
    if k > 0 {
      FreedAtMost(entries, outcomes, k - 1);
      assert entries[..k] == entries[..k - 1] + [entries[k - 1]];
      TotalAppend(entries[..k - 1], [entries[k - 1]]);
      assert Total([entries[k - 1]]) == entries[k - 1].size;
    }
  }

  lemma {:induction false} FreedFromTotal(entries: seq<Entry>, outcomes: seq<Outcome>, k: nat)
    requires k <= |entries| && k <= |outcomes|
    ensures Freed(entries, outcomes, k) <= Total(entries)
  {
    FreedAtMost(entries, outcomes, k);
    assert entries == entries[..k] + entries[k..];
    TotalAppend(entries[..k], entries[k..]);
  }

  /**
    The target is at most 90 per cent of the quota, whatever the quota; and it is the largest number
    of bytes that is, unless the product saturates, which takes a quota of 2^64 / 90 bytes.
  */
  lemma TargetBound(maxBytes: nat)
    ensures 100 * Target(maxBytes) <= 90 * maxBytes
    ensures 90 * maxBytes < U64 ==> 90 * maxBytes < 100 * (Target(maxBytes) + 1)
    ensures 90 * maxBytes >= U64 ==> Target(maxBytes) == 0xFFFF_FFFF_FFFF_FFFF / 100
  {
  }

  lemma {:induction false} TriesNone(entries: seq<Entry>, outcomes: seq<Outcome>)
    ensures Freed(entries, outcomes, 0) == 0 && RemovedCount(outcomes, 0) == 0 && BytesOf(entries, outcomes, 0, {Removed}) == 0
  {
  }

  // What one more try adds.
  lemma TriesOne(entries: seq<Entry>, outcomes: seq<Outcome>, k: nat)
    requires k < |entries| && k < |outcomes|
    ensures var o, size := outcomes[k], entries[k].size;
            && Freed(entries, outcomes, k + 1) == Freed(entries, outcomes, k) + (if o.Removed? || o.Gone? then size else 0)
            && RemovedCount(outcomes, k + 1) == RemovedCount(outcomes, k) + (if o.Removed? then 1 else 0)
            && BytesOf(entries, outcomes, k + 1, {Removed}) == BytesOf(entries, outcomes, k, {Removed}) + (if o.Removed? then size else 0)
  {
  }

  lemma EnoughLeft(bytes: nat, maxBytes: nat)
    ensures bytes <= Target(maxBytes) ==> 100 * bytes <= 90 * maxBytes
  {
    TargetBound(maxBytes);
    hide Target;
  }

  datatype Summary = Summary(files: nat, bytes: nat, evictedFiles: nat, evictedBytes: nat, failed: nat)

  /**
    The eviction part of `maintain`. `outcomes` is what trying each entry comes to, oldest first;
    `tried` counts the entries that were tried.
  */
  method Evict(entries: seq<Entry>, outcomes: seq<Outcome>, maxBytes: nat) returns (summary: Summary, tried: nat)
    requires |outcomes| == |entries| && Total(entries) < U64
    ensures |ByAge(entries)| == |entries| && tried <= |entries|
    ensures summary.bytes == Total(entries) - Freed(ByAge(entries), outcomes, tried)
    ensures summary.evictedFiles == RemovedCount(outcomes, tried) && summary.files == |entries| - summary.evictedFiles
    ensures summary.evictedBytes == BytesOf(ByAge(entries), outcomes, tried, {Removed})
    // nothing is evicted unless the total exceeds a quota
    ensures maxBytes == 0 || Total(entries) <= maxBytes ==> tried == 0
    // afterwards at most 90 per cent of the quota are left, or everything was tried
    ensures maxBytes > 0 && Total(entries) > maxBytes ==> 100 * summary.bytes <= 90 * maxBytes || tried == |entries|
    // strictly older entries are tried before, so a younger one goes only if they are gone, locked or failed
    ensures forall i, j :: 0 <= i < |entries| && 0 <= j < tried && ByAge(entries)[i].lastUsed < ByAge(entries)[j].lastUsed ==> i < j
    // before each try the total exceeded the target
    ensures forall k :: 0 <= k < tried ==> Total(entries) - Freed(ByAge(entries), outcomes, k) > Target(maxBytes)
  {
    var currentBytes: nat := Sum(entries);
    var evictedFiles: nat, evictedBytes: nat, failed: nat := 0, 0, 0;
    tried := 0;
    ByAgeKeeps(entries);
    TriesNone(ByAge(entries), outcomes);
    hide ByAge, Insert, Total, Target, BytesOf, RemovedCount, Freed;
    if maxBytes > 0 && currentBytes > maxBytes {
      var sorted := ByAge(entries);
      var target := Target(maxBytes);
      hide OldestFirst;
      while tried < |sorted| && currentBytes > target
        invariant tried <= |sorted|
        invariant currentBytes == Total(sorted) - Freed(sorted, outcomes, tried)
        invariant evictedFiles == RemovedCount(outcomes, tried)
        invariant evictedBytes == BytesOf(sorted, outcomes, tried, {Removed})
        invariant forall k :: 0 <= k < tried ==> Total(sorted) - Freed(sorted, outcomes, k) > target
      {
        FreedFromTotal(sorted, outcomes, tried + 1);
        TriesOne(sorted, outcomes, tried);
        match outcomes[tried] {
          case Locked =>
          case Removed =>
            currentBytes := SaturatingSub(currentBytes, sorted[tried].size);
            evictedFiles := evictedFiles + 1;
            evictedBytes := evictedBytes + sorted[tried].size;
          case Gone =>
            currentBytes := SaturatingSub(currentBytes, sorted[tried].size);
          case Failed =>
            failed := failed + 1;
        }
        tried := tried + 1;
      }
    }
    EnoughLeft(currentBytes, maxBytes);
    summary := Summary(SaturatingSub(|entries|, evictedFiles), currentBytes, evictedFiles, evictedBytes, failed);
  }

  function SaturatingSub(a: nat, b: nat): nat {
    if a < b then 0 else a - b
  }

  method Sum(entries: seq<Entry>) returns (sum: nat)
    ensures sum == Total(entries)
  {
    sum := 0;
    for i := 0 to |entries|
      invariant sum == Total(entries[..i])
    {
      assert entries[..i + 1] == entries[..i] + [entries[i]];
      TotalAppend(entries[..i], [entries[i]]);
      assert Total([entries[i]]) == entries[i].size;
      sum := sum + entries[i].size;
    }
    assert entries[..|entries|] == entries;
  }
}
