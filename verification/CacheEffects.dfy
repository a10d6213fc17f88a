/**
  What the conversions of a run get out of the cache, and that they get to their end.
*/
module CacheEffects {
  import opened Text
  import opened CacheProtocol

  // ----- What is read -----

  predicate HasContent(pc: Pc) {
    pc.Made? || pc.Publishing? || pc.Checked? || pc.Renamed? || pc.Ready?
  }

  // The conversion's content is this file's, found there, or this conversion made it.
  predicate Origin(s: State, a: Action, id: nat, name: string, content: Content) {
    || a == Make(id, content)
    || (a == Look(id) && content != "" && name in s.files && s.files[name] == content)
  }

  ghost predicate Follows(r: Run, i: nat)
    requires i < |r.actions| < |r.states|
  {
    Enabled(r.states[i], r.actions[i]) && r.states[i + 1] == Do(r.states[i], r.actions[i])
  }

  lemma StepOf(r: Run, i: nat)
    requires IsRun(r) && i < |r.actions|
    ensures Follows(r, i)
  {
  }

  lemma ContentStep(s: State, a: Action, id: nat)
    requires Enabled(s, a) && id in Do(s, a).conversions && HasContent(Do(s, a).conversions[id].pc)
    ensures id in s.conversions && s.conversions[id].artifact == Do(s, a).conversions[id].artifact
    ensures var content := Do(s, a).conversions[id].pc.content;
            || Origin(s, a, id, NameOf(s, id), content)
            || (HasContent(s.conversions[id].pc) && s.conversions[id].pc.content == content)
  {
    hide LockKey, FileName, KeyOf, IsHash, Total, Sizes;
  }

  lemma {:induction false} ContentHasOrigin(r: Run, i: nat, id: nat) returns (k: nat)
    requires IsRun(r) && i < |r.states| && id in r.states[i].conversions && HasContent(r.states[i].conversions[id].pc)
    ensures k < i && Origin(r.states[k], r.actions[k], id, NameOf(r.states[i], id), r.states[i].conversions[id].pc.content)
    decreases i
  {
    StepOf(r, i - 1);
    hide IsRun, Do, Enabled, FileName;
    ContentStep(r.states[i - 1], r.actions[i - 1], id);
    if Origin(r.states[i - 1], r.actions[i - 1], id, NameOf(r.states[i], id), r.states[i].conversions[id].pc.content) {
      k := i - 1;
    } else {
      k := ContentHasOrigin(r, i - 1, id);
    }
  }

  /**
    What a conversion reads is not empty, and either it was in the conversion's file when that was
    looked up, or the conversion made it itself.
  */
  lemma ReadIsFoundOrMade(r: Run, i: nat, id: nat) returns (k: nat)
    requires IsRun(r) && i < |r.actions| && r.actions[i] == Read(id)
    ensures id in r.states[i].conversions && r.states[i].conversions[id].pc.Ready?
    ensures var content := r.states[i].conversions[id].pc.content;
            && content != "" && k < i && Origin(r.states[k], r.actions[k], id, NameOf(r.states[i], id), content)
            && NameOf(r.states[i], id) in r.states[i].files && r.states[i].files[NameOf(r.states[i], id)] == content
  {
    ReadsAreSafe(r, i, id);
    hide *;
    k := ContentHasOrigin(r, i, id);
  }

  // ----- Getting to the end -----

  function Rank(pc: Pc): nat {
    match pc
    case Waiting => 0
    case Holding => 1
    case Missed => 2
    case Cleared => 3
    case Made(_) => 4
    case Publishing(_) => 5
    case Checked(_, _) => 6
    case Renamed(_, _) => 7
    case Ready(_) => 8
    case Done => 9
  }

  predicate OfConversion(a: Action, id: nat) {
    a in {Lock(id), Look(id), Clear(id), WaitMaintenance(id), CheckExisting(id), Rename(id), Count(id), Read(id), GiveUp(id)}
    || (a.Make? && a.id == id)
  }

  /**
    Every step of a conversion takes it further and nothing takes it back, so at most nine steps lead
    to its end; a sweep tries every entry it saw at most once.
  */
  lemma StepsForward(s: State, a: Action, id: nat)
    requires Enabled(s, a) && id in s.conversions
    ensures id in Do(s, a).conversions
    ensures if OfConversion(a, id) then Rank(Do(s, a).conversions[id].pc) > Rank(s.conversions[id].pc)
            else Do(s, a).conversions[id] == s.conversions[id]
    ensures a.Skip? || a.Remove? || a.Keep? ==>
              Do(s, a).sweep.Scanned? && Do(s, a).sweep.left.Keys == s.sweep.left.Keys - {if a.Skip? then a.name else s.sweep.name}
  {
    hide LockKey, FileName, KeyOf, IsHash, Total, Sizes;
  }
}
