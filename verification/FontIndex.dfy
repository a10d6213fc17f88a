/**
  The incremental font index: one rebuild walks the font directories, inspects what changed in
  concurrent batches, writes the results and prunes what is gone. The disk is taken not to change
  while a rebuild runs. The loops are methods of a class that holds the rows; what they leave in
  the rows is a function of the old rows, the disk and the walk, and the theorems are about it.
*/
module FontIndex {
  import opened Text

  // A path as its components, which is what `Path::starts_with` compares.
  type Path = seq<string>

  // What inspecting a font yields; two files with the same faces index the same.
  type Faces = seq<string>

  // A font file: its metadata and what its content yields, nothing when it cannot be inspected.
  datatype File = File(size: int, mtime: int, faces: Option<Faces>)

  datatype Row = Row(size: int, mtime: int, ok: bool, faces: Faces)

  type Rows = map<Path, Row>
  type Disk = map<Path, File>

  // The row a file gets when it is inspected.
  function FreshRow(f: File): Row {
    match f.faces
    case Some(faces) => Row(f.size, f.mtime, true, faces)
    case None => Row(f.size, f.mtime, false, [])
  }

  // `old.size == meta.size && old.mtime == meta.mtime && old.status == "ok"`
  predicate Unchanged(rows: Rows, path: Path, f: File) {
    path in rows && rows[path].size == f.size && rows[path].mtime == f.mtime && rows[path].ok
  }

  // What walking one root reports, and whether the walk was complete.
  datatype Event = Found(path: Path) | WalkError
  datatype Root = Root(prefix: Path, events: seq<Event>, complete: bool)

  predicate Under(path: Path, root: Root) {
    root.prefix <= path
  }

  predicate UnderComplete(path: Path, roots: seq<Root>) {
    exists i :: 0 <= i < |roots| && roots[i].complete && Under(path, roots[i])
  }

  function FoundIn(events: seq<Event>): set<Path> {
    set i | 0 <= i < |events| && events[i].Found? :: events[i].path
  }

  function Seen(roots: seq<Root>): set<Path> {
    set i, path | 0 <= i < |roots| && path in FoundIn(roots[i].events) :: path
  }

  // Walks report files of the disk; a complete one reports all of them.
  predicate Walked(roots: seq<Root>, disk: Disk) {
    && (forall path :: path in Seen(roots) ==> path in disk)
    && (forall i, path :: 0 <= i < |roots| && roots[i].complete && path in disk && Under(path, roots[i]) ==> path in Seen(roots))
  }

  // ----- What a rebuild makes of the rows -----

  // `lost` are the files whose inspection task died; their rows are left as they are.
  predicate Rewritten(rows: Rows, disk: Disk, seen: set<Path>, lost: set<Path>, path: Path) {
    path in seen && path in disk && !Unchanged(rows, path, disk[path]) && path !in lost
  }

  predicate Pruned(rows: Rows, roots: seq<Root>, path: Path) {
    path in rows && path !in Seen(roots) && UnderComplete(path, roots)
  }

  function Rebuilt(rows: Rows, disk: Disk, roots: seq<Root>, lost: set<Path>): Rows {
    map path | path in rows.Keys + Seen(roots)
      && (Rewritten(rows, disk, Seen(roots), lost, path) || (path in rows && !Pruned(rows, roots, path))) ::
      if Rewritten(rows, disk, Seen(roots), lost, path) then FreshRow(disk[path]) else rows[path]
  }

  // The index made from nothing.
  function FromScratch(disk: Disk, roots: seq<Root>): Rows {
    Rebuilt(map[], disk, roots, {})
  }

  // An ok row with the file's size and modification time has the file's content.
  predicate Trustworthy(rows: Rows, disk: Disk) {
    forall path :: path in rows && path in disk ==>
      var row, f := rows[path], disk[path];
      row.ok && row.size == f.size && row.mtime == f.mtime ==> f.faces == Some(row.faces)
  }

  /**
    Under every fully walked root the rebuilt rows are those of an index made from nothing, when
    metadata can be trusted and the file's inspection task did not die.
  */
  lemma RebuiltIsFresh(rows: Rows, disk: Disk, roots: seq<Root>, lost: set<Path>, path: Path)
    requires Walked(roots, disk) && Trustworthy(rows, disk) && UnderComplete(path, roots) && path !in lost
    ensures var a, b := Rebuilt(rows, disk, roots, lost), FromScratch(disk, roots);
            && (path in a <==> path in b) && (path in a ==> a[path] == b[path])
            && (path in a <==> path in disk) && (path in a ==> a[path] == FreshRow(disk[path]))
  {
    TrustedRow(rows, disk, path);
    hide FreshRow, Under, Trustworthy;
    var i :| 0 <= i < |roots| && roots[i].complete && Under(path, roots[i]);
    assert path in disk ==> path in Seen(roots);
  }

  lemma TrustedRow(rows: Rows, disk: Disk, path: Path)
    requires Trustworthy(rows, disk)
    ensures path in disk && Unchanged(rows, path, disk[path]) ==> rows[path] == FreshRow(disk[path])
  {
  }

  /**
    Without any trust: a file that was seen gets the row of its content when it had no row, when its
    size or its time differs, or when it could not be read before, unless its inspection died; and
    only then does its row change.
  */
  lemma ChangedIsFresh(rows: Rows, disk: Disk, roots: seq<Root>, lost: set<Path>, path: Path)
    requires Walked(roots, disk) && path in Seen(roots)
    ensures var a, f := Rebuilt(rows, disk, roots, lost), disk[path];
            var changed := path !in rows || rows[path].size != f.size || rows[path].mtime != f.mtime || !rows[path].ok;
            && (changed && path !in lost ==>
                  path in a && a[path] == Row(f.size, f.mtime, f.faces.Some?, if f.faces.Some? then f.faces.value else []))
            && (!changed || (path in lost && path in rows) ==> path in a && a[path] == rows[path])
            && (changed && path in lost && path !in rows ==> path !in a)
  {
    hide UnderComplete, Seen;
  }

  // The path is the root's own or lies below it.
  predicate IsBelow(path: Path, prefix: Path) {
    |prefix| <= |path| && path[..|prefix|] == prefix
  }

  /** A row that was not seen goes exactly when it lies below a fully walked root, and is left alone elsewhere. */
  lemma UnseenExactly(rows: Rows, disk: Disk, roots: seq<Root>, lost: set<Path>, path: Path)
    requires path !in Seen(roots)
    ensures var a := Rebuilt(rows, disk, roots, lost);
            && (path in a <==> path in rows && forall i :: 0 <= i < |roots| && roots[i].complete ==> !IsBelow(path, roots[i].prefix))
            && (path in a ==> a[path] == rows[path])
  {
    hide FreshRow, Unchanged, Seen;
    if UnderComplete(path, roots) {
      var i :| 0 <= i < |roots| && roots[i].complete && Under(path, roots[i]);
      assert IsBelow(path, roots[i].prefix);
    } else {
      forall i | 0 <= i < |roots| && roots[i].complete
        ensures !IsBelow(path, roots[i].prefix)
      {
        assert !Under(path, roots[i]);
      }
    }
  }

  // ----- Writing -----

  // The rows after writing the fresh rows of some files.
  function Written(rows: Rows, paths: set<Path>, disk: Disk): Rows {
    map path | path in rows.Keys + (paths * disk.Keys) :: if path in paths && path in disk then FreshRow(disk[path]) else rows[path]
  }

  lemma WrittenOne(rows: Rows, paths: set<Path>, disk: Disk, path: Path)
    requires path in disk
    ensures Written(rows, paths, disk)[path := FreshRow(disk[path])] == Written(rows, paths + {path}, disk)
  {
    hide FreshRow;
  }

  lemma WrittenMore(rows: Rows, paths: set<Path>, more: set<Path>, disk: Disk)
    ensures Written(Written(rows, paths, disk), more, disk) == Written(rows, paths + more, disk)
  {
    hide FreshRow;
  }

  lemma FreshRowIs(f: File)
    ensures FreshRow(f) == match f.faces
                           case Some(faces) => Row(f.size, f.mtime, true, faces)
                           case None => Row(f.size, f.mtime, false, [])
  {
  }

  function PathSet(paths: seq<Path>): set<Path> {
    set i | 0 <= i < |paths| :: paths[i]
  }

  lemma PathSetPush(paths: seq<Path>, path: Path)
    ensures PathSet(paths + [path]) == PathSet(paths) + {path}
  {
    forall p | p in PathSet(paths)
      ensures p in PathSet(paths + [path])
    {
      var i :| 0 <= i < |paths| && paths[i] == p;
      assert (paths + [path])[i] == p;
    }
    assert (paths + [path])[|paths|] == path;
  }

  const BatchSize: nat := 500

  datatype Summary = Summary(indexed: nat, failed: nat, skipped: nat, scanned: nat, pruned: nat)

  // How often a walk reported a file, and how often it failed.
  function Founds(events: seq<Event>): nat {
    if events == [] then 0
    else Founds(events[..|events| - 1]) + if events[|events| - 1].Found? then 1 else 0
  }

  function Errors(events: seq<Event>): nat {
    if events == [] then 0
    else Errors(events[..|events| - 1]) + if events[|events| - 1].WalkError? then 1 else 0
  }

  function AllFounds(roots: seq<Root>): nat {
    if roots == [] then 0 else AllFounds(roots[..|roots| - 1]) + Founds(roots[|roots| - 1].events)
  }

  function AllErrors(roots: seq<Root>): nat {
    if roots == [] then 0 else AllErrors(roots[..|roots| - 1]) + Errors(roots[|roots| - 1].events)
  }

  // The files among these whose inspection yields faces.
  function Readable(paths: set<Path>, dead: set<Path>, disk: Disk): set<Path> {
    set path | path in paths && path !in dead && path in disk && disk[path].faces.Some?
  }

  // The inspections of a batch: what runs, and what came out and is not written yet.
  datatype Batch = Batch(tasks: set<Path>, indexed: seq<Path>, failed: seq<Path>)

  predicate Sorted(b: Batch, disk: Disk) {
    && (forall path :: path in b.tasks ==> path in disk)
    && (forall i :: 0 <= i < |b.indexed| ==> b.indexed[i] in disk && disk[b.indexed[i]].faces.Some?)
    && (forall i :: 0 <= i < |b.failed| ==> b.failed[i] in disk && disk[b.failed[i]].faces.None?)
  }

  // Everything a batch still has to write.
  function Open(b: Batch): set<Path> {
    PathSet(b.indexed) + PathSet(b.failed)
  }

  class Index {
    var rows: Rows

    constructor (initial: Rows)
      ensures rows == initial
    {
      rows := initial;
    }

    // `write_index_results`: one transaction, the indexed files before the failed ones.
    method WriteResults(indexed: seq<Path>, failed: seq<Path>, disk: Disk)
      requires Sorted(Batch({}, indexed, failed), disk)
      modifies this
      ensures rows == Written(old(rows), PathSet(indexed) + PathSet(failed), disk)
    {
      WrittenNothing(rows, disk);
      assert PathSet(indexed[..0]) == {} && PathSet(failed[..0]) == {};
      hide Written, FreshRow, PathSet;
      for i := 0 to |indexed|
        invariant rows == Written(old(rows), PathSet(indexed[..i]), disk)
      {
        var path := indexed[i];
        FreshRowIs(disk[path]);
        rows := rows[path := Row(disk[path].size, disk[path].mtime, true, disk[path].faces.value)];
        WrittenOne(old(rows), PathSet(indexed[..i]), disk, path);
        PathSetPush(indexed[..i], path);
        assert indexed[..i + 1] == indexed[..i] + [path];
      }
      assert indexed[..|indexed|] == indexed;
      ghost var some := PathSet(indexed);
      assert some + {} == some;
      for i := 0 to |failed|
        invariant rows == Written(old(rows), some + PathSet(failed[..i]), disk)
      {
        var path := failed[i];
        FreshRowIs(disk[path]);
        rows := rows[path := Row(disk[path].size, disk[path].mtime, false, [])];
        WrittenOne(old(rows), some + PathSet(failed[..i]), disk, path);
        PathSetPush(failed[..i], path);
        assert failed[..i + 1] == failed[..i] + [path];
        assert some + PathSet(failed[..i]) + {path} == some + (PathSet(failed[..i]) + {path});
      }
      assert failed[..|failed|] == failed;
    }

    // `flush_index_batch_if_ready`
    method Flush(b: Batch, force: bool, disk: Disk) returns (b': Batch)
      requires Sorted(b, disk)
      modifies this
      ensures Sorted(b', disk) && b'.tasks == b.tasks && (force ==> Open(b') == {})
      ensures Written(rows, Open(b'), disk) == Written(old(rows), Open(b), disk)
    {
      if !force && |b.indexed| + |b.failed| < BatchSize {
        return b;
      }
      WriteResults(b.indexed, b.failed, disk);
      b' := b.(indexed := [], failed := []);
      assert Open(b') == {};
      assert Written(rows, {}, disk) == rows;
    }

    // `inspect_and_write_changed_fonts`; `dead` are the files whose inspection task dies.
    method InspectAndWrite(changed: seq<Path>, concurrency: nat, dead: set<Path>, disk: Disk, summary: Summary)
      returns (summary': Summary)
      requires concurrency >= 1 && Distinct(changed) && forall i :: 0 <= i < |changed| ==> changed[i] in disk
      modifies this
      ensures rows == Written(old(rows), PathSet(changed) - dead, disk)
      ensures summary'.indexed == summary.indexed + |Readable(PathSet(changed), dead, disk)|
      ensures Attempts(summary') == Attempts(summary) + |changed|
      ensures summary' == summary.(indexed := summary'.indexed, failed := summary'.failed)
    {
      hide *;
      summary' := summary;
      var b := Batch({}, [], []);
      ghost var was := rows;
      GoingAtStart(was, dead, disk, summary);
      assert changed[..0] == [];
      for i := 0 to |changed|
        invariant Going(was, rows, changed[..i], b, dead, disk, summary, summary')
      {
        while |b.tasks| >= concurrency
          invariant Going(was, rows, changed[..i], b, dead, disk, summary, summary')
          decreases b.tasks
        {
          b, summary' := CollectAndFlush(was, changed[..i], b, dead, disk, summary, summary');
        }
        NotYet(changed, i);
        Spawn(was, rows, changed[..i], b, changed[i], dead, disk, summary, summary');
        b := b.(tasks := b.tasks + {changed[i]});
        assert changed[..i + 1] == changed[..i] + [changed[i]];
      }
      assert changed[..|changed|] == changed;
      while b.tasks != {}
        invariant Going(was, rows, changed, b, dead, disk, summary, summary')
        decreases b.tasks
      {
        b, summary' := CollectAndFlush(was, changed, b, dead, disk, summary, summary');
      }
      GoingAtEnd(was, rows, changed, b, dead, disk, summary, summary');
      b := Flush(b, true, disk);
      WrittenNothing(rows, disk);
    }

    // `rebuild_index_reserved`; `bump` tells whether the index revision is raised at the end.
    method Rebuild(roots: seq<Root>, concurrency: nat, dead: set<Path>, disk: Disk) returns (summary: Summary, bump: bool)
      requires Walked(roots, disk) && concurrency >= 1
      modifies this
      ensures rows == Rebuilt(old(rows), disk, roots, dead)
      ensures var changed, stale := Todo(old(rows), Seen(roots), disk), StaleIn(old(rows), roots);
              && Tallied(summary, changed, stale, roots, dead, disk)
              && (bump <==> changed != {} || stale != {} || AllErrors(roots) > 0)
      ensures !bump ==> rows == old(rows)
    {
      hide *;
      var existing := rows;
      summary := Summary(0, 0, 0, 0, 0);
      var seen: set<Path>, batch: seq<Path> := {}, [];
      NothingWalked(existing, dead, disk);
      NoRoots(roots);
      for i := 0 to |roots|
        invariant Walking(existing, rows, seen, batch, dead, disk, summary, AllFounds(roots[..i]), AllErrors(roots[..i]))
        invariant seen == Seen(roots[..i])
      {
        seen, batch, summary := WalkRoot(existing, roots, i, concurrency, seen, batch, dead, disk, summary);
        SeenPush(roots, i);
        CountsPush(roots, i);
      }
      summary := WriteBatch(existing, seen, batch, concurrency, dead, disk, summary, AllFounds(roots), AllErrors(roots));
      AllWritten(existing, rows, roots, dead, disk, summary);
      summary := Prune(existing, roots, summary);
      bump := summary.indexed > 0 || summary.failed > 0 || summary.pruned > 0;
      BumpIs(existing, roots, dead, disk, summary);
    }

    // The events of one root, as they come in.
    method WalkRoot(existing: Rows, roots: seq<Root>, i: nat, concurrency: nat, seen: set<Path>, batch: seq<Path>, dead: set<Path>,
                    disk: Disk, summary: Summary) returns (seen': set<Path>, batch': seq<Path>, summary': Summary)
      requires i < |roots| && Walked(roots, disk) && concurrency >= 1
      requires Walking(existing, rows, seen, batch, dead, disk, summary, AllFounds(roots[..i]), AllErrors(roots[..i]))
      modifies this
      ensures Walking(existing, rows, seen', batch', dead, disk, summary',
                      AllFounds(roots[..i]) + Founds(roots[i].events), AllErrors(roots[..i]) + Errors(roots[i].events))
      ensures seen' == seen + FoundIn(roots[i].events)
    {
      hide *;
      seen', batch', summary' := seen, batch, summary;
      var events := roots[i].events;
      ghost var found, errors := AllFounds(roots[..i]), AllErrors(roots[..i]);
      NoEvents(events);
      for k := 0 to |events|
        invariant Walking(existing, rows, seen', batch', dead, disk, summary', found + Founds(events[..k]), errors + Errors(events[..k]))
        invariant seen' == seen + FoundIn(events[..k])
      {
        EventSeen(roots, disk, i, k);
        FoundPush(events, k);
        EventPush(events, k);
        seen', batch', summary' := WalkEvent(existing, events[k], concurrency, seen', batch', dead, disk, summary',
                                             found + Founds(events[..k]), errors + Errors(events[..k]));
      }
    }

    // One thing the walk reports.
    method WalkEvent(existing: Rows, event: Event, concurrency: nat, seen: set<Path>, batch: seq<Path>, dead: set<Path>, disk: Disk,
                     summary: Summary, ghost found: nat, ghost errors: nat)
      returns (seen': set<Path>, batch': seq<Path>, summary': Summary)
      requires (event.Found? ==> event.path in disk) && concurrency >= 1
      requires Walking(existing, rows, seen, batch, dead, disk, summary, found, errors)
      modifies this
      ensures Walking(existing, rows, seen', batch', dead, disk, summary',
                      found + if event.Found? then 1 else 0, errors + if event.WalkError? then 1 else 0)
      ensures seen' == seen + if event.Found? then {event.path} else {}
    {
      hide *;
      match event {
        case WalkError =>
          OneMore(existing, rows, seen, batch, dead, disk, summary, found, errors);
          seen', batch', summary' := seen, batch, summary.(failed := summary.failed + 1);
        case Found(path) =>
          seen', batch', summary' := WalkFile(existing, path, concurrency, seen, batch, dead, disk, summary, found, errors);
      }
    }

    // One file the walk reports.
    method WalkFile(existing: Rows, path: Path, concurrency: nat, seen: set<Path>, batch: seq<Path>, dead: set<Path>, disk: Disk,
                    summary: Summary, ghost found: nat, ghost errors: nat)
      returns (seen': set<Path>, batch': seq<Path>, summary': Summary)
      requires path in disk && concurrency >= 1 && Walking(existing, rows, seen, batch, dead, disk, summary, found, errors)
      modifies this
      ensures Walking(existing, rows, seen', batch', dead, disk, summary', found + 1, errors)
      ensures seen' == seen + {path}
    {
      hide *;
      seen', batch', summary' := seen, batch, summary;
      if path in seen {
        OneMore(existing, rows, seen, batch, dead, disk, summary, found, errors);
        summary' := summary.(skipped := summary.skipped + 1);
        return;
      }
      seen' := seen + {path};
      summary' := summary.(scanned := summary.scanned + 1);
      if Unchanged(existing, path, disk[path]) {
        WalkedUnchanged(existing, rows, seen, batch, path, dead, disk, summary, found, errors);
        summary' := summary'.(skipped := summary'.skipped + 1);
        return;
      }
      WalkedChanged(existing, rows, seen, batch, path, dead, disk, summary, found, errors);
      batch' := batch + [path];
      if |batch'| >= BatchSize {
        summary' := WriteBatch(existing, seen', batch', concurrency, dead, disk, summary', found + 1, errors);
        batch' := [];
      }
    }

    // `prune_stale_fonts`
    method Prune(existing: Rows, roots: seq<Root>, summary: Summary) returns (summary': Summary)
      modifies this
      ensures var stale := StaleIn(existing, roots);
              rows == old(rows) - stale && summary' == summary.(pruned := |stale|)
    {
      var stale := StaleIn(existing, roots);
      rows := rows - stale;
      summary' := summary.(pruned := |stale|);
    }

    method WriteBatch(ghost existing: Rows, ghost seen: set<Path>, batch: seq<Path>, concurrency: nat, dead: set<Path>, disk: Disk,
                      summary: Summary, ghost found: nat, ghost errors: nat) returns (summary': Summary)
      requires Walking(existing, rows, seen, batch, dead, disk, summary, found, errors) && concurrency >= 1
      modifies this
      ensures Walking(existing, rows, seen, [], dead, disk, summary', found, errors)
      ensures summary' == summary.(indexed := summary'.indexed, failed := summary'.failed)
    {
      BatchFacts(existing, rows, seen, batch, dead, disk, summary, found, errors);
      hide *;
      ghost var before := rows;
      summary' := InspectAndWrite(batch, concurrency, dead, disk, summary);
      BatchWritten(existing, before, rows, seen, batch, dead, disk, summary, summary', found, errors);
    }

    method CollectAndFlush(ghost was: Rows, ghost changed: seq<Path>, b: Batch, dead: set<Path>, disk: Disk,
                           ghost summary: Summary, current: Summary)
      returns (b': Batch, current': Summary)
      requires Going(was, rows, changed, b, dead, disk, summary, current) && b.tasks != {}
      modifies this
      ensures Going(was, rows, changed, b', dead, disk, summary, current') && b'.tasks < b.tasks
    {
      var path;
      b', current', path := Collect(b, dead, disk, current);
      Collected(was, rows, changed, b, b', path, dead, disk);
      Counted(changed, b.tasks, path, dead, disk);
      b' := Flush(b', false, disk);
    }
  }

  function Attempts(s: Summary): nat {
    s.indexed + s.failed
  }

  lemma WrittenNothing(rows: Rows, disk: Disk)
    ensures Written(rows, {}, disk) == rows
  {
  }

  // In the middle of a batch: what is written and what is open make up what was collected.
  predicate Going(was: Rows, rows: Rows, changed: seq<Path>, b: Batch, dead: set<Path>, disk: Disk, summary: Summary, current: Summary) {
    && Sorted(b, disk) && b.tasks <= PathSet(changed) && Distinct(changed)
    && Written(rows, Open(b), disk) == Written(was, PathSet(changed) - b.tasks - dead, disk)
    && Attempts(current) + |b.tasks| == Attempts(summary) + |changed|
    && current.indexed == summary.indexed + |Readable(PathSet(changed) - b.tasks, dead, disk)|
    && current == summary.(indexed := current.indexed, failed := current.failed)
  }

  lemma GoingAtStart(was: Rows, dead: set<Path>, disk: Disk, summary: Summary)
    ensures Going(was, was, [], Batch({}, [], []), dead, disk, summary, summary)
  {
    assert PathSet([]) == {} && Open(Batch({}, [], [])) == {} && Readable({} - {}, dead, disk) == {};
  }

  lemma GoingAtEnd(was: Rows, rows: Rows, changed: seq<Path>, b: Batch, dead: set<Path>, disk: Disk, summary: Summary, current: Summary)
    requires Going(was, rows, changed, b, dead, disk, summary, current) && b.tasks == {}
    ensures Sorted(b, disk) && Written(rows, Open(b), disk) == Written(was, PathSet(changed) - dead, disk)
    ensures Attempts(current) == Attempts(summary) + |changed|
    ensures current.indexed == summary.indexed + |Readable(PathSet(changed), dead, disk)|
    ensures current == summary.(indexed := current.indexed, failed := current.failed)
  {
    hide Written, Readable;
    assert PathSet(changed) - b.tasks == PathSet(changed);
  }

  lemma NotYet(paths: seq<Path>, i: nat)
    requires Distinct(paths) && i < |paths|
    ensures paths[i] !in PathSet(paths[..i])
  {
  }

  lemma Spawn(was: Rows, rows: Rows, changed: seq<Path>, b: Batch, path: Path, dead: set<Path>, disk: Disk, summary: Summary, current: Summary)
    requires Going(was, rows, changed, b, dead, disk, summary, current) && path in disk && path !in PathSet(changed)
    ensures Going(was, rows, changed + [path], b.(tasks := b.tasks + {path}), dead, disk, summary, current)
  {
    SpawnedSets(changed, b.tasks, path);
    SpawnedBatch(b, path, disk);
    hide Written, Readable, Sorted, Open, PathSet, Distinct;
  }

  lemma SpawnedSets(changed: seq<Path>, tasks: set<Path>, path: Path)
    requires path !in PathSet(changed) && tasks <= PathSet(changed) && Distinct(changed)
    ensures tasks + {path} <= PathSet(changed + [path]) && |tasks + {path}| == |tasks| + 1
    ensures PathSet(changed + [path]) - (tasks + {path}) == PathSet(changed) - tasks
    ensures Distinct(changed + [path])
  {
    PathSetPush(changed, path);
  }

  lemma SpawnedBatch(b: Batch, path: Path, disk: Disk)
    requires Sorted(b, disk) && path in disk
    ensures var b' := b.(tasks := b.tasks + {path}); Sorted(b', disk) && Open(b') == Open(b)
  {
  }

  predicate Distinct(paths: seq<Path>) {
    forall i, j :: 0 <= i < j < |paths| ==> paths[i] != paths[j]
  }

  lemma Collected(was: Rows, rows: Rows, changed: seq<Path>, b: Batch, b': Batch, path: Path, dead: set<Path>, disk: Disk)
    requires path in b.tasks && b'.tasks == b.tasks - {path} && Open(b') == Open(b) + ({path} - dead) && b.tasks <= PathSet(changed)
    requires Written(rows, Open(b), disk) == Written(was, PathSet(changed) - b.tasks - dead, disk)
    ensures Written(rows, Open(b'), disk) == Written(was, PathSet(changed) - b'.tasks - dead, disk)
  {
    WrittenMore(rows, Open(b), {path} - dead, disk);
    WrittenMore(was, PathSet(changed) - b.tasks - dead, {path} - dead, disk);
    assert PathSet(changed) - b'.tasks - dead == (PathSet(changed) - b.tasks - dead) + ({path} - dead);
  }

  lemma Counted(changed: seq<Path>, tasks: set<Path>, path: Path, dead: set<Path>, disk: Disk)
    requires path in tasks && tasks <= PathSet(changed)
    ensures |Readable(PathSet(changed) - (tasks - {path}), dead, disk)|
            == |Readable(PathSet(changed) - tasks, dead, disk)| + if path !in dead && path in disk && disk[path].faces.Some? then 1 else 0
    ensures |tasks - {path}| == |tasks| - 1
  {
    var before := Readable(PathSet(changed) - tasks, dead, disk);
    var after := Readable(PathSet(changed) - (tasks - {path}), dead, disk);
    assert after == if path !in dead && path in disk && disk[path].faces.Some? then before + {path} else before;
  }

  // `collect_inspect_task`: any task may be the next to finish; a dead one only counts as failed.
  method Collect(b: Batch, dead: set<Path>, disk: Disk, summary: Summary)
    returns (b': Batch, summary': Summary, path: Path)
    requires Sorted(b, disk) && b.tasks != {}
    ensures path in b.tasks && Sorted(b', disk) && b'.tasks == b.tasks - {path} && Open(b') == Open(b) + ({path} - dead)
    ensures summary' == if path !in dead && path in disk && disk[path].faces.Some? then summary.(indexed := summary.indexed + 1)
                        else summary.(failed := summary.failed + 1)
  {
    path :| path in b.tasks;
    var rest := b.(tasks := b.tasks - {path});
    PathSetPush(b.indexed, path);
    PathSetPush(b.failed, path);
    if path in dead {
      b', summary' := rest, summary.(failed := summary.failed + 1);
    } else if disk[path].faces.Some? {
      b', summary' := rest.(indexed := b.indexed + [path]), summary.(indexed := summary.indexed + 1);
    } else {
      b', summary' := rest.(failed := b.failed + [path]), summary.(failed := summary.failed + 1);
    }
  }

  // ----- The walk -----

  // The files seen so far that need an inspection.
  function Todo(existing: Rows, seen: set<Path>, disk: Disk): set<Path> {
    set path | path in seen && path in disk && !Unchanged(existing, path, disk[path])
  }

  // The rows to be pruned.
  function StaleIn(rows: Rows, roots: seq<Root>): set<Path> {
    set path | path in rows && Pruned(rows, roots, path)
  }

  // The numbers a rebuild reports: every changed file is indexed or failed, every other report of a
  // file is skipped, and a failure of the walk counts as failed.
  predicate Tallied(summary: Summary, changed: set<Path>, stale: set<Path>, roots: seq<Root>, dead: set<Path>, disk: Disk) {
    && summary.indexed == |Readable(changed, dead, disk)| && summary.indexed + summary.failed == |changed| + AllErrors(roots)
    && summary.skipped + |changed| == AllFounds(roots) && summary.scanned == |Seen(roots)| && summary.pruned == |stale|
  }

  // In the middle of the walk, after so many reports of files and of errors: all files due are
  // written or in the batch, and everything is counted.
  predicate Walking(existing: Rows, rows: Rows, seen: set<Path>, batch: seq<Path>, dead: set<Path>, disk: Disk, summary: Summary,
                    found: nat, errors: nat) {
    var todo := Todo(existing, seen, disk);
    && Distinct(batch) && PathSet(batch) <= todo
    && (forall i :: 0 <= i < |batch| ==> batch[i] in disk)
    && rows == Written(existing, todo - PathSet(batch) - dead, disk)
    && summary.indexed == |Readable(todo - PathSet(batch), dead, disk)|
    && Attempts(summary) + |batch| == |todo| + errors
    && summary.skipped + |todo| == found && summary.scanned == |seen|
    && summary.pruned == 0
  }

  lemma WalkedUnchanged(existing: Rows, rows: Rows, seen: set<Path>, batch: seq<Path>, path: Path, dead: set<Path>, disk: Disk,
                        summary: Summary, found: nat, errors: nat)
    requires Walking(existing, rows, seen, batch, dead, disk, summary, found, errors) && path !in seen && path in disk
    requires Unchanged(existing, path, disk[path])
    ensures Walking(existing, rows, seen + {path}, batch, dead, disk,
                    summary.(scanned := summary.scanned + 1, skipped := summary.skipped + 1), found + 1, errors)
  {
    TodoGrows(existing, seen, path, disk);
    hide Written, FreshRow, Readable, Todo, PathSet, Distinct;
    assert Todo(existing, seen + {path}, disk) == Todo(existing, seen, disk);
  }

  lemma WalkedChanged(existing: Rows, rows: Rows, seen: set<Path>, batch: seq<Path>, path: Path, dead: set<Path>, disk: Disk,
                      summary: Summary, found: nat, errors: nat)
    requires Walking(existing, rows, seen, batch, dead, disk, summary, found, errors) && path !in seen && path in disk
    requires !Unchanged(existing, path, disk[path])
    ensures Walking(existing, rows, seen + {path}, batch + [path], dead, disk, summary.(scanned := summary.scanned + 1), found + 1, errors)
  {
    var todo, todo' := Todo(existing, seen, disk), Todo(existing, seen + {path}, disk);
    TodoGrows(existing, seen, path, disk);
    PathSetPush(batch, path);
    hide Written, FreshRow, Readable, Todo;
    assert path !in PathSet(batch);
    assert Distinct(batch + [path]);
    hide PathSet, Distinct;
    assert todo' - PathSet(batch + [path]) == todo - PathSet(batch);
    assert |todo'| == |todo| + 1;
  }

  lemma TodoGrows(existing: Rows, seen: set<Path>, path: Path, disk: Disk)
    requires path !in seen && path in disk
    ensures path !in Todo(existing, seen, disk)
    ensures Todo(existing, seen + {path}, disk) == Todo(existing, seen, disk) + if Unchanged(existing, path, disk[path]) then {} else {path}
  {
  }

  // A failure of the walk, and a file that was reported before.
  lemma OneMore(existing: Rows, rows: Rows, seen: set<Path>, batch: seq<Path>, dead: set<Path>, disk: Disk, summary: Summary,
                found: nat, errors: nat)
    requires Walking(existing, rows, seen, batch, dead, disk, summary, found, errors)
    ensures Walking(existing, rows, seen, batch, dead, disk, summary.(failed := summary.failed + 1), found, errors + 1)
    ensures Walking(existing, rows, seen, batch, dead, disk, summary.(skipped := summary.skipped + 1), found + 1, errors)
  {
    hide Written, Todo, Distinct, PathSet, Readable;
  }

  lemma BatchFacts(existing: Rows, rows: Rows, seen: set<Path>, batch: seq<Path>, dead: set<Path>, disk: Disk, summary: Summary,
                   found: nat, errors: nat)
    requires Walking(existing, rows, seen, batch, dead, disk, summary, found, errors)
    ensures Distinct(batch) && forall i :: 0 <= i < |batch| ==> batch[i] in disk
  {
  }

  lemma BatchWritten(existing: Rows, before: Rows, rows: Rows, seen: set<Path>, batch: seq<Path>, dead: set<Path>, disk: Disk,
                     summary: Summary, summary': Summary, found: nat, errors: nat)
    requires Walking(existing, before, seen, batch, dead, disk, summary, found, errors)
    requires rows == Written(before, PathSet(batch) - dead, disk)
    requires summary'.indexed == summary.indexed + |Readable(PathSet(batch), dead, disk)| && Attempts(summary') == Attempts(summary) + |batch|
    requires summary' == summary.(indexed := summary'.indexed, failed := summary'.failed)
    ensures Walking(existing, rows, seen, [], dead, disk, summary', found, errors)
  {
    var todo := Todo(existing, seen, disk);
    WrittenMore(existing, todo - PathSet(batch) - dead, PathSet(batch) - dead, disk);
    ReadableParts(todo, PathSet(batch), dead, disk);
    hide Written, Todo, Readable;
    assert PathSet([]) == {};
    assert (todo - PathSet(batch) - dead) + (PathSet(batch) - dead) == todo - {} - dead;
    assert todo - {} == todo;
  }

  lemma ReadableParts(all: set<Path>, part: set<Path>, dead: set<Path>, disk: Disk)
    requires part <= all
    ensures |Readable(all, dead, disk)| == |Readable(all - part, dead, disk)| + |Readable(part, dead, disk)|
  {
    assert Readable(all, dead, disk) == Readable(all - part, dead, disk) + Readable(part, dead, disk);
    assert Readable(all - part, dead, disk) !! Readable(part, dead, disk);
  }

  lemma EventPush(events: seq<Event>, k: nat)
    requires k < |events|
    ensures Founds(events[..k + 1]) == Founds(events[..k]) + if events[k].Found? then 1 else 0
    ensures Errors(events[..k + 1]) == Errors(events[..k]) + if events[k].WalkError? then 1 else 0
  {
    assert events[..k + 1][..k] == events[..k];
  }

  lemma CountsPush(roots: seq<Root>, i: nat)
    requires i < |roots|
    ensures AllFounds(roots[..i + 1]) == AllFounds(roots[..i]) + Founds(roots[i].events)
    ensures AllErrors(roots[..i + 1]) == AllErrors(roots[..i]) + Errors(roots[i].events)
  {
    assert roots[..i + 1][..i] == roots[..i];
  }

  lemma FoundPush(events: seq<Event>, k: nat)
    requires k < |events|
    ensures FoundIn(events[..k + 1]) == FoundIn(events[..k]) + if events[k].Found? then {events[k].path} else {}
  {
    assert events[..k + 1] == events[..k] + [events[k]];
    forall p | p in FoundIn(events[..k])
      ensures p in FoundIn(events[..k + 1])
    {
      var i :| 0 <= i < k && events[..k][i].Found? && events[..k][i].path == p;
      assert events[..k + 1][i].Found? && events[..k + 1][i].path == p;
    }
    if events[k].Found? {
      assert events[..k + 1][k].path == events[k].path;
    }
  }

  lemma NoEvents(events: seq<Event>)
    ensures FoundIn(events[..0]) == {} && Founds(events[..0]) == 0 && Errors(events[..0]) == 0
    ensures events[..|events|] == events
  {
  }

  lemma NoRoots(roots: seq<Root>)
    ensures Seen(roots[..0]) == {} && AllFounds(roots[..0]) == 0 && AllErrors(roots[..0]) == 0
    ensures roots[..|roots|] == roots
  {
  }

  lemma SeenPush(roots: seq<Root>, i: nat)
    requires i < |roots|
    ensures Seen(roots[..i + 1]) == Seen(roots[..i]) + FoundIn(roots[i].events)
  {
    forall p | p in Seen(roots[..i])
      ensures p in Seen(roots[..i + 1])
    {
      var j :| 0 <= j < i && p in FoundIn(roots[..i][j].events);
      assert p in FoundIn(roots[..i + 1][j].events);
    }
    forall p | p in FoundIn(roots[i].events)
      ensures p in Seen(roots[..i + 1])
    {
      assert p in FoundIn(roots[..i + 1][i].events);
    }
  }

  lemma EventSeen(roots: seq<Root>, disk: Disk, i: nat, k: nat)
    requires i < |roots| && k < |roots[i].events| && Walked(roots, disk)
    ensures roots[i].events[k].Found? ==> roots[i].events[k].path in Seen(roots) && roots[i].events[k].path in disk
  {
    if roots[i].events[k].Found? {
      assert roots[i].events[k].path in FoundIn(roots[i].events);
    }
  }

  lemma NothingWalked(existing: Rows, dead: set<Path>, disk: Disk)
    ensures Walking(existing, existing, {}, [], dead, disk, Summary(0, 0, 0, 0, 0), 0, 0)
  {
    assert Todo(existing, {}, disk) == {} && PathSet([]) == {} && Readable({}, dead, disk) == {};
    WrittenNothing(existing, disk);
  }

  /** After the walk and the pruning every row is what the rebuild says, and everything is counted. */
  lemma {:induction false} AllWritten(existing: Rows, rows: Rows, roots: seq<Root>, dead: set<Path>, disk: Disk, summary: Summary)
    requires Walking(existing, rows, Seen(roots), [], dead, disk, summary, AllFounds(roots), AllErrors(roots))
    ensures var changed, stale := Todo(existing, Seen(roots), disk), StaleIn(existing, roots);
            && rows - stale == Rebuilt(existing, disk, roots, dead)
            && (changed == {} && stale == {} ==> rows - stale == existing)
            && Tallied(summary.(pruned := |stale|), changed, stale, roots, dead, disk)
  {
    FinalRows(existing, disk, roots, dead);
    WrittenNothing(existing, disk);
    var changed := Todo(existing, Seen(roots), disk);
    hide Written, Rebuilt, Seen, Pruned, Readable, Todo;
    assert PathSet([]) == {} && changed - {} == changed;
    if changed == {} {
      assert {} - dead == {};
      assert rows - {} == rows;
    }
  }

  lemma {:induction false} BumpIs(existing: Rows, roots: seq<Root>, dead: set<Path>, disk: Disk, summary: Summary)
    requires Tallied(summary, Todo(existing, Seen(roots), disk), StaleIn(existing, roots), roots, dead, disk)
    ensures var changed, stale := Todo(existing, Seen(roots), disk), StaleIn(existing, roots);
            summary.indexed > 0 || summary.failed > 0 || summary.pruned > 0 <==> changed != {} || stale != {} || AllErrors(roots) > 0
  {
    hide Todo, Readable, Seen, StaleIn;
  }

  lemma FinalRows(existing: Rows, disk: Disk, roots: seq<Root>, dead: set<Path>)
    ensures var stale := StaleIn(existing, roots);
            Written(existing, Todo(existing, Seen(roots), disk) - PathSet([]) - dead, disk) - stale == Rebuilt(existing, disk, roots, dead)
  {
    hide FreshRow, Unchanged, Seen, UnderComplete;
  }
}
