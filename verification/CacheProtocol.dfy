/**
  The font cache under concurrency: conversions look a file up, make and publish it and read it
  while they hold the lock of its key; maintenance evicts files under the maintenance lock and
  only ever tries a key's lock. One action per lock or file operation.
*/
module CacheProtocol {
  import opened Text

  type Content = string

  // ----- Names and keys -----

  predicate EndsWith(s: string, p: string) {
    |p| <= |s| && s[|s| - |p|..] == p
  }

  predicate IsHexDigit(c: char) {
    '0' <= c <= '9' || 'a' <= c <= 'f' || 'A' <= c <= 'F'
  }

  predicate IsHash(s: string) {
    |s| == 64 && forall c :: c in s ==> IsHexDigit(c)
  }

  const DrawSuffix := ".draw.ttf"
  const FontSuffix := ".ttf"

  // `cache_lock_key`
  function LockKey(name: string): Option<string> {
    if EndsWith(name, DrawSuffix) then
      if IsHash(name[..|name| - 9]) then Some("draw:" + name[..|name| - 9]) else None
    else if EndsWith(name, FontSuffix) then
      if IsHash(name[..|name| - 4]) then Some("font:" + name[..|name| - 4]) else None
    else None
  }

  // What a conversion wants: the drawing font or the font subset with this digest.
  datatype Artifact = Artifact(draw: bool, digest: string)

  function FileName(a: Artifact): string {
    a.digest + if a.draw then DrawSuffix else FontSuffix
  }

  function KeyOf(a: Artifact): string {
    (if a.draw then "draw:" else "font:") + a.digest
  }

  /** Eviction takes the key the conversions of that file take. */
  lemma SameKey(a: Artifact)
    requires IsHash(a.digest)
    ensures LockKey(FileName(a)) == Some(KeyOf(a))
    ensures LockKey(a.digest + if a.draw then ".draw.ttf" else ".ttf") == Some((if a.draw then "draw:" else "font:") + a.digest)
  {
    var name, n := FileName(a), |FileName(a)|;
    if a.draw {
      assert name[..n - 9] == a.digest && name[n - 9..] == DrawSuffix;
    } else {
      assert name[..n - 4] == a.digest && name[n - 4..] == FontSuffix;
      assert a.digest[59] in a.digest;
      assert name[n - 9..][0] == name[n - 9] == a.digest[59] != DrawSuffix[0];
    }
  }

  /** No two files share a key. */
  lemma KeysApart(x: string, y: string)
    requires LockKey(x).Some? && LockKey(x) == LockKey(y)
    ensures x == y
  {
    var kx, ky := LockKey(x).value, LockKey(y).value;
    assert kx[0] == if EndsWith(x, DrawSuffix) then 'd' else 'f';
    assert ky[0] == if EndsWith(y, DrawSuffix) then 'd' else 'f';
    var n := if EndsWith(x, DrawSuffix) then 9 else 4;
    assert kx[5..] == x[..|x| - n] && ky[5..] == y[..|y| - n];
    assert x == x[..|x| - n] + x[|x| - n..] && y == y[..|y| - n] + y[|y| - n..];
  }

  // ----- State -----

  datatype Pc =
    | Waiting
    | Holding
    | Missed
    | Cleared
    | Made(content: Content)
    | Publishing(content: Content)
    | Checked(content: Content, existed: bool)
    | Renamed(content: Content, existed: bool)
    | Ready(content: Content)
    | Done

  datatype Conversion = Conversion(artifact: Artifact, pc: Pc)

  // Who holds a lock.
  datatype Holder = ByConversion(id: nat) | BySweep

  // Maintenance: the entries still to try, the sizes it saw, and its byte count.
  datatype Sweep = Idle | Scanned(left: map<string, nat>, bytes: int)
                 | Trying(name: string, left: map<string, nat>, bytes: int)

  datatype State = State(
    files: map<string, Content>,
    keys: map<string, Holder>,
    maintenance: Option<Holder>,
    conversions: map<nat, Conversion>,
    sweep: Sweep,
    counter: int)

  datatype Action =
    | Start(id: nat, artifact: Artifact)
    | Lock(id: nat)
    | Look(id: nat)
    | Clear(id: nat)
    | Make(id: nat, content: Content)
    | WaitMaintenance(id: nat)
    | CheckExisting(id: nat)
    | Rename(id: nat)
    | Count(id: nat)
    | Read(id: nat)
    | GiveUp(id: nat)
    | Scan
    | Skip(name: string)
    | TryLock(name: string)
    | Remove
    | Keep
    | FinishSweep

  predicate At(s: State, id: nat, pc: Pc) {
    id in s.conversions && s.conversions[id].pc == pc
  }

  function PcOf(s: State, id: nat): Pc {
    if id in s.conversions then s.conversions[id].pc else Done
  }

  function NameOf(s: State, id: nat): string
    requires id in s.conversions
  {
    FileName(s.conversions[id].artifact)
  }

  function KeyFor(s: State, id: nat): string
    requires id in s.conversions
  {
    KeyOf(s.conversions[id].artifact)
  }

  // `file_is_ready`
  predicate IsReady(s: State, name: string) {
    name in s.files && s.files[name] != ""
  }

  // A missing file takes no bytes.
  function Size(files: map<string, Content>, name: string): nat {
    if name in files then |files[name]| else 0
  }

  predicate Enabled(s: State, a: Action) {
    match a
    case Start(id, artifact) => id !in s.conversions && IsHash(artifact.digest)
    case Lock(id) => At(s, id, Waiting) && KeyFor(s, id) !in s.keys
    case Look(id) => At(s, id, Holding)
    case Clear(id) => At(s, id, Missed)
    case Make(id, content) => At(s, id, Cleared) && content != ""
    case WaitMaintenance(id) => PcOf(s, id).Made? && s.maintenance == None
    case CheckExisting(id) => PcOf(s, id).Publishing?
    case Rename(id) => PcOf(s, id).Checked?
    case Count(id) => PcOf(s, id).Renamed?
    case Read(id) => PcOf(s, id).Ready?
    case GiveUp(id) => id in s.conversions && (PcOf(s, id).Holding? || PcOf(s, id).Missed? || PcOf(s, id).Cleared? || PcOf(s, id).Made?)
    case Scan => s.sweep == Idle && s.maintenance == None
    case Skip(name) => s.sweep.Scanned? && name in s.sweep.left && LockKey(name).Some? && LockKey(name).value in s.keys
    case TryLock(name) => s.sweep.Scanned? && name in s.sweep.left && LockKey(name).Some? && LockKey(name).value !in s.keys
    case Remove => s.sweep.Trying?
    case Keep => s.sweep.Trying?
    case FinishSweep => s.sweep.Scanned?
  }

  function To(s: State, id: nat, pc: Pc): State
    requires id in s.conversions
  {
    s.(conversions := s.conversions[id := s.conversions[id].(pc := pc)])
  }

  function Unlocked(s: State, key: string): State {
    s.(keys := s.keys - {key})
  }

  function Sizes(files: map<string, Content>): map<string, nat> {
    map name | name in files :: |files[name]|
  }

  ghost function Do(s: State, a: Action): State
    requires Enabled(s, a)
  {
    match a
    case Start(id, artifact) => s.(conversions := s.conversions[id := Conversion(artifact, Waiting)])
    case Lock(id) => To(s, id, Holding).(keys := s.keys[KeyFor(s, id) := ByConversion(id)])
    case Look(id) => To(s, id, if IsReady(s, NameOf(s, id)) then Ready(s.files[NameOf(s, id)]) else Missed)
    case Clear(id) => To(s, id, Cleared).(files := s.files - {NameOf(s, id)})
    case Make(id, content) => To(s, id, Made(content))
    case WaitMaintenance(id) => To(s, id, Publishing(PcOf(s, id).content)).(maintenance := Some(ByConversion(id)))
    case CheckExisting(id) => To(s, id, Checked(PcOf(s, id).content, IsReady(s, NameOf(s, id))))
    case Rename(id) =>
      To(s, id, Renamed(PcOf(s, id).content, PcOf(s, id).existed)).(files := s.files[NameOf(s, id) := PcOf(s, id).content])
    case Count(id) =>
      To(s, id, Ready(PcOf(s, id).content)).(maintenance := None,
        counter := s.counter + if PcOf(s, id).existed then 0 else |PcOf(s, id).content|)
    case Read(id) => Unlocked(To(s, id, Done), KeyFor(s, id))
    case GiveUp(id) => Unlocked(To(s, id, Done), KeyFor(s, id))
    case Scan => s.(maintenance := Some(BySweep), sweep := Scanned(Sizes(s.files), Total(s.files)))
    case Skip(name) => s.(sweep := Scanned(s.sweep.left - {name}, s.sweep.bytes))
    case TryLock(name) => s.(sweep := Trying(name, s.sweep.left, s.sweep.bytes), keys := s.keys[LockKey(name).value := BySweep])
    case Remove =>
      var name, left := s.sweep.name, s.sweep.left;
      Unlocked(s, if LockKey(name).Some? then LockKey(name).value else "").(
        files := s.files - {name}, sweep := Scanned(left - {name}, s.sweep.bytes - if name in left then left[name] else 0))
    case Keep =>
      Unlocked(s, if LockKey(s.sweep.name).Some? then LockKey(s.sweep.name).value else "").(
        sweep := Scanned(s.sweep.left - {s.sweep.name}, s.sweep.bytes))
    case FinishSweep => s.(maintenance := None, sweep := Idle, counter := s.sweep.bytes)
  }

  // The summed size of the managed files.
  ghost function Total(files: map<string, Content>): nat
    decreases |files|
  {
    if files == map[] then 0
    else
      var name :| name in files;
      |files[name]| + Total(files - {name})
  }

  lemma {:induction false} TotalWithout(files: map<string, Content>, name: string)
    requires name in files
    ensures Total(files) == |files[name]| + Total(files - {name})
    decreases |files|
  {
    var first :| first in files && Total(files) == |files[first]| + Total(files - {first});
    if first != name {
      TotalWithout(files - {first}, name);
      TotalWithout(files - {name}, first);
      assert files - {first} - {name} == files - {name} - {first};
    }
  }

  // ----- The invariant -----

  predicate Holds(pc: Pc) {
    !pc.Waiting? && !pc.Done?
  }

  predicate Publishes(pc: Pc) {
    pc.Publishing? || pc.Checked? || pc.Renamed?
  }

  // What a conversion may rely on about its file.
  predicate FileOk(files: map<string, Content>, name: string, pc: Pc) {
    match pc
    case Waiting => true
    case Holding => true
    case Missed => name in files ==> files[name] == ""
    case Cleared => name !in files
    case Made(content) => name !in files && content != ""
    case Publishing(content) => name !in files && content != ""
    case Checked(content, existed) => name !in files && content != "" && !existed
    case Renamed(content, existed) => name in files && files[name] == content && content != "" && !existed
    case Ready(content) => name in files && files[name] == content && content != ""
    case Done => true
  }

  predicate ConversionOk(s: State, id: nat)
    requires id in s.conversions
  {
    var c := s.conversions[id];
    && IsHash(c.artifact.digest)
    && (Holds(c.pc) ==> KeyOf(c.artifact) in s.keys && s.keys[KeyOf(c.artifact)] == ByConversion(id))
    && FileOk(s.files, FileName(c.artifact), c.pc)
    && (Publishes(c.pc) <==> s.maintenance == Some(ByConversion(id)))
  }

  predicate ConversionsOk(s: State) {
    forall id :: id in s.conversions ==> ConversionOk(s, id)
  }

  // Every lock has its holder.
  predicate KeyOk(s: State, key: string)
    requires key in s.keys
  {
    match s.keys[key]
    case ByConversion(id) => id in s.conversions && Holds(s.conversions[id].pc) && KeyFor(s, id) == key
    case BySweep => s.sweep.Trying? && LockKey(s.sweep.name) == Some(key)
  }

  predicate KeysOk(s: State) {
    && (forall key :: key in s.keys ==> KeyOk(s, key))
    && (s.maintenance.Some? && s.maintenance.value.ByConversion? ==> s.maintenance.value.id in s.conversions)
  }

  // What maintenance has seen is still so.
  predicate SweepOk(s: State) {
    && (s.sweep != Idle <==> s.maintenance == Some(BySweep))
    && (s.sweep != Idle ==>
          forall name :: name in s.sweep.left ==> LockKey(name).Some? && Size(s.files, name) == s.sweep.left[name])
    && (s.sweep.Trying? ==>
          && s.sweep.name in s.sweep.left && LockKey(s.sweep.name).Some?
          && LockKey(s.sweep.name).value in s.keys && s.keys[LockKey(s.sweep.name).value] == BySweep)
    && (forall name :: name in s.files ==> LockKey(name).Some?)
  }

  // The bytes of a file that is in place but not counted yet.
  function Uncounted(s: State): nat {
    if s.maintenance.Some? && s.maintenance.value.ByConversion? && PcOf(s, s.maintenance.value.id).Renamed? then
      |PcOf(s, s.maintenance.value.id).content|
    else 0
  }

  // The byte counter, or maintenance's own count, is right.
  ghost predicate CountOk(s: State) {
    if s.sweep == Idle then s.counter + Uncounted(s) == Total(s.files) else s.sweep.bytes == Total(s.files)
  }

  ghost predicate Inv(s: State) {
    ConversionsOk(s) && KeysOk(s) && SweepOk(s) && CountOk(s)
  }

  // ----- Frames -----

  // The same file name is the same key.
  lemma NamesAreKeys(a: Artifact, b: Artifact)
    requires IsHash(a.digest) && IsHash(b.digest)
    ensures FileName(a) == FileName(b) ==> KeyOf(a) == KeyOf(b)
  {
    SameKey(a);
    SameKey(b);
  }

  // A conversion does not notice changes to files whose key it does not hold.
  lemma Unnoticed(s: State, s': State, id: nat)
    requires id in s.conversions && id in s'.conversions && s'.conversions[id] == s.conversions[id] && ConversionOk(s, id)
    requires var key, name := KeyFor(s, id), NameOf(s, id);
             && (Holds(s.conversions[id].pc) ==>
                   && key in s'.keys && s'.keys[key] == s.keys[key]
                   && (name in s'.files <==> name in s.files) && (name in s.files ==> s'.files[name] == s.files[name]))
             && (s'.maintenance == Some(ByConversion(id)) <==> s.maintenance == Some(ByConversion(id)))
    ensures ConversionOk(s', id)
  {
  }

  // A step of one conversion that changes no file and no lock.
  lemma Moved(s: State, id: nat, pc: Pc)
    requires Inv(s) && id in s.conversions && Holds(s.conversions[id].pc) && Holds(pc)
    requires FileOk(s.files, NameOf(s, id), pc) && !Publishes(s.conversions[id].pc) && !Publishes(pc)
    ensures Inv(To(s, id, pc))
  {
    var s' := To(s, id, pc);
    hide FileOk, LockKey, KeyOf, FileName, IsHash;
    forall i | i in s'.conversions
      ensures ConversionOk(s', i)
    {
      assert ConversionOk(s, i);
    }
    assert ConversionOk(s, id);
    hide ConversionOk;
    forall key | key in s'.keys
      ensures KeyOk(s', key)
    {
      assert KeyOk(s, key);
    }
  }

  lemma {:induction false} TotalRemoved(files: map<string, Content>, name: string)
    ensures Total(files - {name}) == Total(files) - Size(files, name)
  {
    if name in files {
      TotalWithout(files, name);
    } else {
      assert files - {name} == files;
    }
  }

  lemma TotalAdded(files: map<string, Content>, name: string, content: Content)
    requires name !in files
    ensures Total(files[name := content]) == Total(files) + |content|
  {
    TotalWithout(files[name := content], name);
    assert files[name := content] - {name} == files;
  }

  // ----- Conversions -----

  lemma StartKept(s: State, id: nat, artifact: Artifact)
    requires Inv(s) && id !in s.conversions && IsHash(artifact.digest)
    ensures Inv(s.(conversions := s.conversions[id := Conversion(artifact, Waiting)]))
  {
    var s' := s.(conversions := s.conversions[id := Conversion(artifact, Waiting)]);
    hide LockKey, KeyOf, FileName, IsHash;
    forall i | i in s'.conversions
      ensures ConversionOk(s', i)
    {
      assert i != id ==> ConversionOk(s, i);
    }
    hide ConversionOk;
    forall key | key in s'.keys
      ensures KeyOk(s', key)
    {
      assert KeyOk(s, key);
    }
  }

  lemma LockKept(s: State, id: nat)
    requires Inv(s) && At(s, id, Waiting) && KeyFor(s, id) !in s.keys
    ensures Inv(To(s, id, Holding).(keys := s.keys[KeyFor(s, id) := ByConversion(id)]))
  {
    var s' := To(s, id, Holding).(keys := s.keys[KeyFor(s, id) := ByConversion(id)]);
    hide LockKey, KeyOf, FileName, IsHash;
    assert ConversionOk(s, id);
    forall i | i in s'.conversions
      ensures ConversionOk(s', i)
    {
      if i != id {
        Unnoticed(s, s', i);
      }
    }
    hide ConversionOk, FileOk;
    forall key | key in s'.keys
      ensures KeyOk(s', key)
    {
      assert key in s.keys ==> KeyOk(s, key);
    }
  }

  // No other conversion holds the key of this file, nor does maintenance try it.
  lemma AloneOnFile(s: State, id: nat)
    requires ConversionsOk(s) && KeysOk(s) && SweepOk(s) && id in s.conversions && Holds(s.conversions[id].pc)
    ensures forall i :: i in s.conversions && i != id && Holds(s.conversions[i].pc) ==> NameOf(s, i) != NameOf(s, id)
    ensures s.sweep.Trying? ==> s.sweep.name != NameOf(s, id)
  {
    hide FileOk, LockKey, KeyOf, FileName, IsHash, Size;
    assert ConversionOk(s, id);
    forall i | i in s.conversions && i != id && Holds(s.conversions[i].pc)
      ensures NameOf(s, i) != NameOf(s, id)
    {
      assert ConversionOk(s, i);
      NamesAreKeys(s.conversions[i].artifact, s.conversions[id].artifact);
    }
    SameKey(s.conversions[id].artifact);
  }

  // Changing one's own file leaves every other conversion alone.
  lemma OthersUnnoticed(s: State, s': State, id: nat)
    requires ConversionsOk(s) && KeysOk(s) && SweepOk(s) && id in s.conversions && Holds(s.conversions[id].pc)
    requires s'.conversions.Keys == s.conversions.Keys && s'.keys == s.keys
    requires forall i :: i in s.conversions && i != id ==>
               s'.conversions[i] == s.conversions[i]
               && (s'.maintenance == Some(ByConversion(i)) <==> s.maintenance == Some(ByConversion(i)))
    requires s'.files - {NameOf(s, id)} == s.files - {NameOf(s, id)}
    ensures forall i :: i in s'.conversions && i != id ==> ConversionOk(s', i)
  {
    AloneOnFile(s, id);
    hide LockKey, KeyOf, FileName, IsHash, SweepOk, KeysOk;
    forall i | i in s'.conversions && i != id
      ensures ConversionOk(s', i)
    {
      assert ConversionOk(s, i);
      if Holds(s.conversions[i].pc) {
        SameElsewhere(s.files, s'.files, NameOf(s, id), NameOf(s, i));
      }
      Unnoticed(s, s', i);
    }
  }

  lemma SameElsewhere(files: map<string, Content>, files': map<string, Content>, name: string, other: string)
    requires files' - {name} == files - {name} && other != name
    ensures other in files' <==> other in files
    ensures other in files ==> files'[other] == files[other]
  {
    assert other in files' - {name} <==> other in files';
    assert other in files - {name} <==> other in files;
    if other in files {
      assert (files - {name})[other] == files[other] && (files' - {name})[other] == files'[other];
    }
  }

  lemma ClearKept(s: State, id: nat)
    requires Inv(s) && At(s, id, Missed)
    ensures Inv(To(s, id, Cleared).(files := s.files - {NameOf(s, id)}))
  {
    var name := NameOf(s, id);
    var s' := To(s, id, Cleared).(files := s.files - {name});
    hide LockKey, KeyOf, FileName, IsHash, KeyOk, SweepOk;
    OwnFile(s, s', id);
    TotalRemoved(s.files, name);
    SweepUnmoved(s, s', name);
    assert s'.files - {name} == s.files - {name};
    OthersUnnoticed(s, s', id);
    KeysUnmoved(s, s', id);
    hide ConversionOk, FileOk;
  }

  // What maintenance saw is still so when an empty file goes, or when it is not running.
  lemma SweepUnmoved(s: State, s': State, name: string)
    requires SweepOk(s) && s'.sweep == s.sweep && s'.keys == s.keys
    requires s'.maintenance == Some(BySweep) <==> s.maintenance == Some(BySweep)
    requires (s'.files == s.files - {name} && Size(s.files, name) == 0) || (s.sweep == Idle && s'.files - {name} == s.files - {name})
    requires name in s'.files ==> LockKey(name).Some?
    ensures SweepOk(s')
  {
    hide LockKey;
    forall other | other in s'.files && other != name
      ensures other in s.files
    {
      assert other in s'.files - {name};
    }
  }

  // The acting conversion itself, when it keeps its key and its hold on the maintenance lock.
  lemma OwnFile(s: State, s': State, id: nat)
    requires id in s.conversions && ConversionOk(s, id) && id in s'.conversions && s'.keys == s.keys
    requires s'.conversions[id].artifact == s.conversions[id].artifact && Holds(s.conversions[id].pc)
    requires FileOk(s.files, NameOf(s, id), s.conversions[id].pc) ==> FileOk(s'.files, NameOf(s, id), s'.conversions[id].pc)
    requires Publishes(s'.conversions[id].pc) <==> s'.maintenance == Some(ByConversion(id))
    ensures ConversionOk(s', id) && FileOk(s.files, NameOf(s, id), s.conversions[id].pc)
    ensures IsHash(s.conversions[id].artifact.digest)
  {
    hide FileOk, KeyOf, FileName, IsHash;
  }

  lemma WaitKept(s: State, id: nat)
    requires Inv(s) && PcOf(s, id).Made? && s.maintenance == None
    ensures Inv(To(s, id, Publishing(PcOf(s, id).content)).(maintenance := Some(ByConversion(id))))
  {
    var s' := To(s, id, Publishing(PcOf(s, id).content)).(maintenance := Some(ByConversion(id)));
    assert ConversionOk(s, id);
    OthersUnnoticed(s, s', id);
    hide LockKey, KeyOf, FileName, IsHash;
    assert ConversionOk(s', id);
    KeysUnmoved(s, s', id);
    hide ConversionOk, FileOk, KeyOk;
  }

  // The locks of a conversion that goes on holding its own.
  lemma KeysUnmoved(s: State, s': State, id: nat)
    requires KeysOk(s) && id in s.conversions && s'.keys == s.keys && s'.sweep == s.sweep
    requires s'.conversions.Keys == s.conversions.Keys
    requires forall i :: i in s.conversions && i != id ==> s'.conversions[i] == s.conversions[i]
    requires s'.conversions[id].artifact == s.conversions[id].artifact && Holds(s'.conversions[id].pc)
    ensures forall key :: key in s'.keys ==> KeyOk(s', key)
  {
    hide LockKey, KeyOf;
    forall key | key in s'.keys
      ensures KeyOk(s', key)
    {
      assert KeyOk(s, key);
    }
  }

  lemma CheckKept(s: State, id: nat)
    requires Inv(s) && PcOf(s, id).Publishing?
    ensures Inv(To(s, id, Checked(PcOf(s, id).content, IsReady(s, NameOf(s, id)))))
  {
    var s' := To(s, id, Checked(PcOf(s, id).content, IsReady(s, NameOf(s, id))));
    assert ConversionOk(s, id);
    OthersUnnoticed(s, s', id);
    hide LockKey, KeyOf, FileName, IsHash;
    assert ConversionOk(s', id);
    KeysUnmoved(s, s', id);
    hide ConversionOk, FileOk, KeyOk;
  }

  lemma RenameKept(s: State, id: nat)
    requires Inv(s) && PcOf(s, id).Checked?
    ensures var pc := PcOf(s, id);
            Inv(To(s, id, Renamed(pc.content, pc.existed)).(files := s.files[NameOf(s, id) := pc.content]))
  {
    var pc, name := PcOf(s, id), NameOf(s, id);
    var s' := To(s, id, Renamed(pc.content, pc.existed)).(files := s.files[name := pc.content]);
    assert Publishes(pc) && s.maintenance == Some(ByConversion(id)) by {
      assert ConversionOk(s, id);
    }
    assert s.sweep == Idle;
    hide LockKey, KeyOf, FileName, IsHash, KeyOk, SweepOk;
    OwnFile(s, s', id);
    SameKey(s.conversions[id].artifact);
    assert s'.files - {name} == s.files - {name};
    SweepUnmoved(s, s', name);
    OthersUnnoticed(s, s', id);
    TotalAdded(s.files, name, pc.content);
    KeysUnmoved(s, s', id);
    hide ConversionOk, FileOk;
  }

  lemma CountKept(s: State, id: nat)
    requires Inv(s) && PcOf(s, id).Renamed?
    ensures var pc := PcOf(s, id);
            Inv(To(s, id, Ready(pc.content)).(maintenance := None, counter := s.counter + if pc.existed then 0 else |pc.content|))
  {
    var pc := PcOf(s, id);
    var s' := To(s, id, Ready(pc.content)).(maintenance := None, counter := s.counter + if pc.existed then 0 else |pc.content|);
    assert Publishes(pc) && s.maintenance == Some(ByConversion(id)) by {
      assert ConversionOk(s, id);
    }
    assert s.sweep == Idle;
    hide LockKey, KeyOf, FileName, IsHash, KeyOk, SweepOk;
    OwnFile(s, s', id);
    SameKey(s.conversions[id].artifact);
    SweepUnmoved(s, s', NameOf(s, id));
    OthersUnnoticed(s, s', id);
    KeysUnmoved(s, s', id);
    hide ConversionOk, FileOk;
  }

  // The conversion ends and lets go of its key.
  lemma EndKept(s: State, id: nat)
    requires Inv(s) && id in s.conversions && Holds(s.conversions[id].pc) && !Publishes(s.conversions[id].pc)
    ensures Inv(Unlocked(To(s, id, Done), KeyFor(s, id)))
  {
    var s' := Unlocked(To(s, id, Done), KeyFor(s, id));
    assert ConversionOk(s, id);
    hide LockKey, KeyOf, FileName, IsHash;
    forall i | i in s'.conversions
      ensures ConversionOk(s', i)
    {
      assert ConversionOk(s, i);
    }
    hide ConversionOk, FileOk;
    forall key | key in s'.keys
      ensures KeyOk(s', key)
    {
      assert KeyOk(s, key);
    }
  }

  // ----- Maintenance -----

  lemma ScanKept(s: State)
    requires Inv(s) && s.sweep == Idle && s.maintenance == None
    ensures Inv(s.(maintenance := Some(BySweep), sweep := Scanned(Sizes(s.files), Total(s.files))))
  {
    var s' := s.(maintenance := Some(BySweep), sweep := Scanned(Sizes(s.files), Total(s.files)));
    Unmoved(s, s');
    hide ConversionOk, FileOk, KeyOk, LockKey;
  }

  // Conversions and locks that maintenance does not touch.
  lemma Unmoved(s: State, s': State)
    requires ConversionsOk(s) && KeysOk(s) && s'.conversions == s.conversions && s'.keys == s.keys && s'.files == s.files
    requires s.sweep.Trying? ==> s'.sweep.Trying? && s'.sweep.name == s.sweep.name
    requires forall i :: s'.maintenance == Some(ByConversion(i)) <==> s.maintenance == Some(ByConversion(i))
    ensures ConversionsOk(s') && KeysOk(s')
  {
    hide FileOk, LockKey, KeyOf, FileName, IsHash;
    forall i | i in s'.conversions
      ensures ConversionOk(s', i)
    {
      assert ConversionOk(s, i);
    }
    forall key | key in s'.keys
      ensures KeyOk(s', key)
    {
      assert KeyOk(s, key);
    }
    assert s'.maintenance.Some? && s'.maintenance.value.ByConversion? ==>
        s.maintenance == Some(ByConversion(s'.maintenance.value.id));
  }

  lemma SkipKept(s: State, name: string)
    requires Inv(s) && s.sweep.Scanned?
    ensures Inv(s.(sweep := Scanned(s.sweep.left - {name}, s.sweep.bytes)))
  {
    Unmoved(s, s.(sweep := Scanned(s.sweep.left - {name}, s.sweep.bytes)));
    hide ConversionOk, FileOk, KeyOk, LockKey;
  }

  lemma TryKept(s: State, name: string)
    requires Inv(s) && s.sweep.Scanned? && name in s.sweep.left && LockKey(name).Some? && LockKey(name).value !in s.keys
    ensures Inv(s.(sweep := Trying(name, s.sweep.left, s.sweep.bytes), keys := s.keys[LockKey(name).value := BySweep]))
  {
    var s1 := s.(sweep := Trying(name, s.sweep.left, s.sweep.bytes));
    var s' := s1.(keys := s.keys[LockKey(name).value := BySweep]);
    Unmoved(s, s1);
    hide FileOk, LockKey, KeyOf, FileName, IsHash;
    forall i | i in s'.conversions
      ensures ConversionOk(s', i)
    {
      assert ConversionOk(s1, i);
    }
    hide ConversionOk;
    forall key | key in s'.keys
      ensures KeyOk(s', key)
    {
      assert key in s1.keys ==> KeyOk(s1, key);
    }
  }

  // Maintenance lets go of a key, having removed the file or not.
  lemma {:induction false} LetGo(s: State, files: map<string, Content>, bytes: int)
    requires Inv(s) && s.sweep.Trying? && bytes == Total(files)
    requires files == s.files || files == s.files - {s.sweep.name}
    ensures LockKey(s.sweep.name).Some?
    ensures Inv(Unlocked(s, LockKey(s.sweep.name).value).(files := files, sweep := Scanned(s.sweep.left - {s.sweep.name}, bytes)))
  {
    var name, key := s.sweep.name, LockKey(s.sweep.name).value;
    var s' := Unlocked(s, key).(files := files, sweep := Scanned(s.sweep.left - {name}, bytes));
    hide LockKey, ConversionOk, KeyOk;
    ConversionsUntouched(s, s', name);
    assert KeysOk(s') by { KeyReleased(s, s', key); }
    hide ConversionsOk, KeysOk;
    assert forall n :: n in s'.sweep.left ==> n in s.sweep.left && Size(files, n) == Size(s.files, n);
  }

  lemma KeyReleased(s: State, s': State, key: string)
    requires KeysOk(s) && s'.keys == s.keys - {key} && s'.conversions == s.conversions && s'.maintenance == s.maintenance
    requires s.sweep.Trying? && LockKey(s.sweep.name) == Some(key)
    ensures KeysOk(s')
  {
    hide LockKey, KeyOf;
    forall k | k in s'.keys
      ensures KeyOk(s', k)
    {
      assert KeyOk(s, k);
    }
  }

  // A file whose key maintenance holds is nobody's.
  lemma ConversionsUntouched(s: State, s': State, name: string)
    requires ConversionsOk(s) && LockKey(name).Some? && LockKey(name).value in s.keys && s.keys[LockKey(name).value] == BySweep
    requires s'.conversions == s.conversions && s'.maintenance == s.maintenance
    requires s'.keys == s.keys - {LockKey(name).value} && (s'.files == s.files || s'.files == s.files - {name})
    ensures ConversionsOk(s')
  {
    forall i | i in s'.conversions
      ensures ConversionOk(s', i)
    {
      assert ConversionOk(s, i);
      SameKey(s.conversions[i].artifact);
      hide LockKey, KeyOf, FileName, IsHash;
      Unnoticed(s, s', i);
    }
  }

  lemma RemoveKept(s: State)
    requires Inv(s) && s.sweep.Trying?
    ensures Inv(Do(s, Remove))
  {
    var name := s.sweep.name;
    TotalRemoved(s.files, name);
    hide ConversionsOk, KeysOk;
    LetGo(s, s.files - {name}, s.sweep.bytes - s.sweep.left[name]);
    hide LockKey;
  }

  lemma KeepKept(s: State)
    requires Inv(s) && s.sweep.Trying?
    ensures Inv(Do(s, Keep))
  {
    hide ConversionsOk, KeysOk;
    LetGo(s, s.files, s.sweep.bytes);
    hide LockKey;
  }

  lemma FinishKept(s: State)
    requires Inv(s) && s.sweep.Scanned?
    ensures Inv(s.(maintenance := None, sweep := Idle, counter := s.sweep.bytes))
  {
    Unmoved(s, s.(maintenance := None, sweep := Idle, counter := s.sweep.bytes));
    hide ConversionOk, FileOk, KeyOk, LockKey;
  }

  lemma LookKept(s: State, id: nat)
    requires Inv(s) && At(s, id, Holding)
    ensures Inv(Do(s, Look(id)))
  {
    hide ConversionsOk, KeysOk, SweepOk, CountOk;
    Moved(s, id, if IsReady(s, NameOf(s, id)) then Ready(s.files[NameOf(s, id)]) else Missed);
  }

  lemma MakeKept(s: State, id: nat, content: Content)
    requires Inv(s) && At(s, id, Cleared) && content != ""
    ensures Inv(To(s, id, Made(content)))
  {
    assert ConversionOk(s, id);
    hide ConversionsOk, KeysOk, SweepOk, CountOk, ConversionOk;
    Moved(s, id, Made(content));
  }

  /** Every lock and file operation keeps the invariant, whatever the interleaving. */
  lemma StepKeepsInv(s: State, a: Action)
    requires Inv(s) && Enabled(s, a)
    ensures Inv(Do(s, a))
  {
    hide Inv, IsHash, LockKey, KeyOf, FileName, IsReady, Sizes, Total;
    match a
    case Start(id, artifact) => StartKept(s, id, artifact);
    case Lock(id) => LockKept(s, id);
    case Look(id) => LookKept(s, id);
    case Clear(id) => ClearKept(s, id);
    case Make(id, content) => MakeKept(s, id, content);
    case WaitMaintenance(id) => WaitKept(s, id);
    case CheckExisting(id) => CheckKept(s, id);
    case Rename(id) => RenameKept(s, id);
    case Count(id) => CountKept(s, id);
    case Read(id) => EndKept(s, id);
    case GiveUp(id) => EndKept(s, id);
    case Scan => ScanKept(s);
    case Skip(name) => SkipKept(s, name);
    case TryLock(name) => TryKept(s, name);
    case Remove => RemoveKept(s);
    case Keep => KeepKept(s);
    case FinishSweep => FinishKept(s);
  }

  // ----- Properties -----

  ghost predicate Init(s: State) {
    && s.conversions == map[] && s.keys == map[] && s.maintenance == None && s.sweep == Idle
    && (forall name :: name in s.files ==> LockKey(name).Some?) && s.counter == Total(s.files)
  }

  datatype Run = Run(states: seq<State>, actions: seq<Action>)

  ghost predicate IsRun(r: Run) {
    && |r.states| == |r.actions| + 1 && Init(r.states[0])
    && forall i :: 0 <= i < |r.actions| ==>
         Enabled(r.states[i], r.actions[i]) && r.states[i + 1] == Do(r.states[i], r.actions[i])
  }

  lemma {:induction false} RunHolds(r: Run, i: nat)
    requires IsRun(r) && i < |r.states|
    ensures Inv(r.states[i])
    decreases i
  {
    hide Inv, Do, Enabled;
    if i == 0 {
      InitHolds(r.states[0]);
    } else {
      RunHolds(r, i - 1);
      StepKeepsInv(r.states[i - 1], r.actions[i - 1]);
    }
  }

  lemma InitHolds(s: State)
    requires Init(s)
    ensures Inv(s)
  {
  }

  /** A file found ready or published is still there, unchanged, when it is read. */
  lemma ReadsAreSafe(r: Run, i: nat, id: nat)
    requires IsRun(r) && i < |r.actions| && r.actions[i] == Read(id)
    ensures var s := r.states[i];
            && id in s.conversions && s.conversions[id].pc.Ready?
            && NameOf(s, id) in s.files && s.files[NameOf(s, id)] == s.conversions[id].pc.content
  {
    RunHolds(r, i);
    assert Enabled(r.states[i], r.actions[i]);
    assert ConversionOk(r.states[i], id);
  }

  /** Nothing is evicted that a conversion is using. */
  lemma EvictionIsAlone(r: Run, i: nat, id: nat)
    requires IsRun(r) && i < |r.actions| && r.actions[i] == Remove
    requires id in r.states[i].conversions && Holds(r.states[i].conversions[id].pc)
    ensures r.states[i].sweep.Trying? && r.states[i].sweep.name != NameOf(r.states[i], id)
  {
    RunHolds(r, i);
    assert Enabled(r.states[i], r.actions[i]);
    hide Do, FileName, LockKey, ConversionsOk, KeysOk, SweepOk;
    AloneOnFile(r.states[i], id);
  }

  /** The byte counter is the summed size of the files whenever the maintenance lock is free. */
  lemma CounterIsRight(r: Run, i: nat)
    requires IsRun(r) && i < |r.states| && r.states[i].maintenance == None
    ensures r.states[i].counter == Total(r.states[i].files)
  {
    RunHolds(r, i);
  }

  // A step that gets somebody further, as opposed to a new conversion or a failure.
  predicate Progress(a: Action) {
    !a.Start? && !a.GiveUp?
  }

  predicate Busy(s: State) {
    s.sweep != Idle || exists id :: id in s.conversions && !s.conversions[id].pc.Done?
  }

  /** No deadlock: while maintenance runs or a conversion is unfinished, somebody can go on. */
  lemma NoDeadlock(r: Run, i: nat) returns (a: Action)
    requires IsRun(r) && i < |r.states| && Busy(r.states[i])
    ensures Enabled(r.states[i], a) && Progress(a)
  {
    RunHolds(r, i);
    var s := r.states[i];
    hide IsRun;
    if s.sweep != Idle {
      a := SweepGoesOn(s);
    } else if s.maintenance.Some? {
      var id := s.maintenance.value.id;
      assert ConversionOk(s, id);
      a := HolderGoesOn(s, id);
    } else {
      var id :| id in s.conversions && !s.conversions[id].pc.Done?;
      assert ConversionOk(s, id);
      if s.conversions[id].pc == Waiting && KeyFor(s, id) in s.keys {
        assert KeyOk(s, KeyFor(s, id));
        a := HolderGoesOn(s, s.keys[KeyFor(s, id)].id);
      } else if s.conversions[id].pc == Waiting {
        a := Lock(id);
      } else {
        a := HolderGoesOn(s, id);
      }
    }
  }

  lemma SweepGoesOn(s: State) returns (a: Action)
    requires SweepOk(s) && s.sweep != Idle
    ensures Enabled(s, a) && Progress(a)
  {
    hide LockKey;
    if s.sweep.Trying? {
      a := Remove;
    } else if s.sweep.left == map[] {
      a := FinishSweep;
    } else {
      var name :| name in s.sweep.left;
      a := if LockKey(name).value in s.keys then Skip(name) else TryLock(name);
    }
  }

  // Whoever holds a key can go on: only a publisher may have to wait, and not while the
  // maintenance lock is free or its own.
  lemma HolderGoesOn(s: State, id: nat) returns (a: Action)
    requires id in s.conversions && Holds(s.conversions[id].pc)
    requires s.maintenance == None || Publishes(s.conversions[id].pc)
    ensures Enabled(s, a) && Progress(a)
  {
    match s.conversions[id].pc
    case Holding => a := Look(id);
    case Missed => a := Clear(id);
    case Cleared => a := Make(id, "x");
    case Made(_) => a := WaitMaintenance(id);
    case Publishing(_) => a := CheckExisting(id);
    case Checked(_, _) => a := Rename(id);
    case Renamed(_, _) => a := Count(id);
    case Ready(_) => a := Read(id);
  }
}
