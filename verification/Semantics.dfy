/**
  What the interpreter means, position by position and without its scanner: which override blocks
  are closed, which style is in force, which characters are visible, and that the characters the
  scanner collects are exactly those.
*/
module Semantics {
  import opened Text
  import opened FontNames
  import opened Document
  import opened Interpreter

  // Where the override block that is still open at the end of `before` starts: at the first
  // opening brace after the last closing one.
  function OpenBlock(before: string): (o: Option<nat>)
    ensures o.Some? ==> o.value < |before|
  {
    if before == "" then None
    else
      var n := |before| - 1;
      var o := OpenBlock(before[..n]);
      if before[n] == '}' then None
      else if o.Some? then o
      else if before[n] == '{' then Some(n) else None
  }

  // The state in force after `before`: every block closed so far has been applied, in order.
  function InForce(before: string, g: Ground): TagState
    decreases |before|
  {
    if before == "" then TagState(g.base, 0)
    else
      var n := |before| - 1;
      var o := OpenBlock(before[..n]);
      if before[n] == '}' && o.Some? then
        ApplyTags(before[o.value + 1..n], InForce(before[..o.value], g), g.base, g.styles)
      else InForce(before[..n], g)
  }

  // A character of a block that is closed later on, braces included.
  predicate InClosedBlock(text: string, i: nat)
    requires i < |text|
  {
    (OpenBlock(text[..i]).Some? || text[i] == '{') && '}' in text[i..]
  }

  predicate IsEscapeChar(c: char) {
    c == 'N' || c == 'n' || c == 'h'
  }

  // One of the two characters of `\N`, `\n` or `\h`.
  predicate InEscape(text: string, i: nat)
    requires i < |text|
  {
    || (text[i] == '\\' && i + 1 < |text| && IsEscapeChar(text[i + 1]))
    || (i > 0 && text[i - 1] == '\\' && IsEscapeChar(text[i]))
  }

  predicate IsShown(text: string, i: nat)
    requires i < |text|
  {
    !IsControl(text[i]) && !InEscape(text, i)
  }

  // What a slot is for.
  predicate InSlot(style: StyleInfo, slot: Slot) {
    match slot
    case Normal => !style.bold && !style.italic
    case Bold => style.bold && !style.italic
    case Italic => !style.bold && style.italic
    case BoldItalic => style.bold && style.italic
  }

  lemma SlotIs(style: StyleInfo, slot: Slot)
    ensures SlotOf(style) == slot <==> InSlot(style, slot)
  {
  }

  // The characters a font is listed with for a slot.
  function Listed(u: FontUsage, slot: Slot): set<char> {
    match slot
    case Normal => u.normal
    case Bold => u.bold
    case Italic => u.italic
    case BoldItalic => u.boldItalic
  }

  // The character at `i` is drawn with this font and slot.
  predicate DrawnWith(text: string, i: nat, g: Ground, font: string, slot: Slot)
    requires i < |text|
  {
    var st := InForce(text[..i], g);
    && !InClosedBlock(text, i) && IsShown(text, i)
    && st.level <= 0 && font != "" && NormFont(st.style.font) == font && InSlot(st.style, slot)
  }

  predicate DrawnIn(text: string, lo: nat, hi: nat, g: Ground, font: string, slot: Slot, c: char)
    requires hi <= |text|
  {
    exists i :: lo <= i < hi && text[i] == c && DrawnWith(text, i, g, font, slot)
  }

  // The runs collect `c` for this font and slot.
  predicate Collected(runs: seq<Run>, font: string, slot: Slot, c: char) {
    exists k :: 0 <= k < |runs| && runs[k].font == font && runs[k].slot == slot && c in Shown(runs[k].text)
  }

  // ----- Characters of a run -----

  predicate ShownIn(text: string, lo: nat, hi: nat, c: char)
    requires hi <= |text|
  {
    exists i :: lo <= i < hi && text[i] == c && IsShown(text, i)
  }

  // No escape is cut in two at `k`.
  predicate Between(text: string, k: nat)
    requires k <= |text|
  {
    !(0 < k < |text| && text[k - 1] == '\\' && IsEscapeChar(text[k]))
  }

  lemma ShownStep(text: string, lo: nat, hi: nat, c: char, n: nat)
    requires lo + n <= hi <= |text|
    ensures ShownIn(text, lo, hi, c) <==> ShownIn(text, lo, lo + n, c) || ShownIn(text, lo + n, hi, c)
  {
  }

  lemma {:induction false} ShownInRun(text: string, lo: nat, hi: nat, c: char)
    requires lo <= hi <= |text| && Between(text, lo) && Between(text, hi)
    ensures c in Shown(text[lo..hi]) <==> ShownIn(text, lo, hi, c)
    decreases hi - lo
  {
    if lo < hi {
      var run := text[lo..hi];
      if IsEscape(run) {
        assert run[0] == text[lo] && run[1] == text[lo + 1] && run[2..] == text[lo + 2..hi];
        ShownInRun(text, lo + 2, hi, c);
        ShownStep(text, lo, hi, c, 2);
      } else {
        assert run[0] == text[lo] && run[1..] == text[lo + 1..hi];
        assert lo + 1 < hi ==> run[1] == text[lo + 1];
        assert IsShown(text, lo) <==> !IsControl(text[lo]);
        ShownInRun(text, lo + 1, hi, c);
        ShownStep(text, lo, hi, c, 1);
      }
    }
  }

  // ----- Blocks and runs by position -----

  lemma {:induction false} StateKept(text: string, lo: nat, hi: nat, g: Ground)
    requires lo <= hi <= |text| && '{' !in text[lo..hi]
    requires OpenBlock(text[..lo]).Some? ==> '}' !in text[lo..]
    ensures OpenBlock(text[..hi]).Some? ==> '}' !in text[hi..]
    ensures OpenBlock(text[..hi]) == OpenBlock(text[..lo]) && InForce(text[..hi], g) == InForce(text[..lo], g)
    decreases hi - lo
  {
    if lo < hi {
      var n := hi - 1;
      assert text[lo..n] <= text[lo..hi];
      StateKept(text, lo, n, g);
      var before := text[..hi];
      assert before[n] == text[n] == text[n..][0] == text[lo..hi][n - lo];
      assert before[..n] == text[..n] && text[n..][1..] == text[hi..];
    }
  }

  // A brace that nothing closes changes nothing but what follows it.
  lemma {:induction false} LoneBrace(text: string, lo: nat, g: Ground)
    requires lo < |text| && text[lo] == '{' && '}' !in text[lo..]
    ensures '}' !in text[lo + 1..] && InForce(text[..lo + 1], g) == InForce(text[..lo], g)
  {
    var before := text[..lo + 1];
    assert before[..lo] == text[..lo] && text[lo..][1..] == text[lo + 1..];
  }

  lemma {:induction false} BlockOpened(text: string, lo: nat, hi: nat)
    requires lo < hi <= |text| && text[lo] == '{' && OpenBlock(text[..lo]) == None && '}' !in text[lo..hi]
    ensures OpenBlock(text[..hi]) == Some(lo)
    decreases hi
  {
    var n := hi - 1;
    var before := text[..hi];
    assert before[..n] == text[..n] && before[n] == text[n] == text[lo..hi][n - lo];
    if lo < n {
      assert text[lo..n] <= text[lo..hi];
      BlockOpened(text, lo, n);
    }
  }

  lemma {:induction false} BlockClosed(text: string, lo: nat, close: nat, g: Ground)
    requires lo < close < |text| && text[lo] == '{' && text[close] == '}' && '}' !in text[lo..close]
    requires OpenBlock(text[..lo]) == None
    ensures OpenBlock(text[..close + 1]) == None
    ensures InForce(text[..close + 1], g) == ApplyTags(text[lo + 1..close], InForce(text[..lo], g), g.base, g.styles)
    ensures forall i :: lo <= i <= close ==> InClosedBlock(text, i)
  {
    var before := text[..close + 1];
    assert before[..close] == text[..close] && before[close] == '}';
    BlockOpened(text, lo, close);
    assert before[lo + 1..close] == text[lo + 1..close] && before[..lo] == text[..lo];
    forall i | lo <= i <= close
      ensures InClosedBlock(text, i)
    {
      assert text[i..][close - i] == '}';
      if lo < i {
        assert text[lo..i] <= text[lo..close];
        BlockOpened(text, lo, i);
      }
    }
  }

  // ----- The scanner -----

  // Where the scanner stands: outside every block that will be closed, in the right state.
  predicate AtRound(text: string, p: nat, st: TagState, g: Ground) {
    p <= |text| && (OpenBlock(text[..p]).Some? ==> '}' !in text[p..]) && st == InForce(text[..p], g) && Between(text, p)
  }

  lemma DrawnStep(text: string, lo: nat, mid: nat, g: Ground, font: string, slot: Slot, c: char)
    requires lo <= mid <= |text|
    ensures DrawnIn(text, lo, |text|, g, font, slot, c) <==>
            DrawnIn(text, lo, mid, g, font, slot, c) || DrawnIn(text, mid, |text|, g, font, slot, c)
  {
    hide DrawnWith;
  }

  lemma CollectedAppend(a: seq<Run>, b: seq<Run>, font: string, slot: Slot, c: char)
    ensures Collected(a + b, font, slot, c) <==> Collected(a, font, slot, c) || Collected(b, font, slot, c)
  {
    hide Shown;
    if Collected(b, font, slot, c) {
      var k :| 0 <= k < |b| && b[k].font == font && b[k].slot == slot && c in Shown(b[k].text);
      assert (a + b)[|a| + k] == b[k];
    }
    if Collected(a, font, slot, c) {
      var k :| 0 <= k < |a| && a[k].font == font && a[k].slot == slot && c in Shown(a[k].text);
      assert (a + b)[k] == a[k];
    }
  }

  // A run of visible text.
  lemma VisibleRound(text: string, p: nat, end: nat, st: TagState, g: Ground, font: string, slot: Slot, c: char)
    requires AtRound(text, p, st, g) && p < end <= |text| && NextSegment(text[p..]) == Visible(text[p..end], text[end..])
    ensures AtRound(text, end, st, g)
    ensures Collected(RunOf(text[p..end], st), font, slot, c) <==> DrawnIn(text, p, end, g, font, slot, c)
  {
    RunFacts(text, p, end, st, g);
    ShownInRun(text, p, end, c);
    SlotIs(st.style, slot);
    hide Shown, InForce, OpenBlock, NormFont, IsShown, FindChar;
    var here := st.level <= 0 && NormFont(st.style.font) == font && font != "" && InSlot(st.style, slot);
    forall i | p <= i < end
      ensures DrawnWith(text, i, g, font, slot) <==> here && IsShown(text, i)
    {
    }
    var runs := RunOf(text[p..end], st);
    if Collected(runs, font, slot, c) {
      assert here;
    }
    if here {
      assert runs[0].text == text[p..end];
    }
  }

  lemma {:induction false} RunFacts(text: string, p: nat, end: nat, st: TagState, g: Ground)
    requires AtRound(text, p, st, g) && p < end <= |text| && NextSegment(text[p..]) == Visible(text[p..end], text[end..])
    ensures AtRound(text, end, st, g)
    ensures forall i :: p <= i < end ==> !InClosedBlock(text, i) && InForce(text[..i], g) == st
  {
    var rest := text[p..];
    if rest[0] == '{' {
      assert |rest[1..]| == |text[end..]|;
      assert end == p + 1;
      NoneFound(rest, '}');
      LoneBrace(text, p, g);
    } else {
      FindCharFirst(rest, '{');
      assert |rest[FindChar(rest, '{')..]| == |text[end..]|;
      assert end == p + FindChar(rest, '{');
      assert rest[..end - p] == text[p..end];
      StateKept(text, p, end, g);
      forall i | p <= i < end
        ensures !InClosedBlock(text, i) && InForce(text[..i], g) == st
      {
        assert text[p..i] <= text[p..end];
        StateKept(text, p, i, g);
        assert text[i] == text[p..end][i - p];
      }
    }
    assert end < |text| ==> text[end] == '{' || end == p + 1;
  }

  lemma {:induction false} NoneFound(s: string, c: char)
    requires FindChar(s, c) == |s|
    ensures c !in s
  {
    FindCharFirst(s, c);
    assert s[..|s|] == s;
  }

  // A closed block.
  lemma {:induction false} BlockRound(text: string, p: nat, close: nat, st: TagState, g: Ground)
    requires AtRound(text, p, st, g) && p < close < |text|
    requires text[p] == '{' && close == p + FindChar(text[p..], '}')
    ensures AtRound(text, close + 1, ApplyTags(text[p + 1..close], st, g.base, g.styles), g)
    ensures forall i :: p <= i <= close ==> InClosedBlock(text, i)
  {
    var rest := text[p..];
    FindCharFirst(rest, '}');
    assert rest[close - p] == '}' && rest[..close - p] == text[p..close];
    hide FindChar, ApplyTags, InForce, OpenBlock, InClosedBlock;
    BlockClosed(text, p, close, g);
  }

  // The next round of the scanner, with its positions in the whole text.
  lemma SegmentAt(text: string, p: nat) returns (end: nat)
    requires p < |text|
    ensures p < end <= |text|
    ensures var rest := text[p..];
            match NextSegment(rest)
            case Block(tag, after) =>
              text[p] == '{' && p < end - 1 && end - 1 == p + FindChar(rest, '}')
              && tag == text[p + 1..end - 1] && after == text[end..]
            case Visible(run, after) => run == text[p..end] && after == text[end..]
  {
    var rest := text[p..];
    assert rest[0] == text[p];
    match NextSegment(rest)
    case Block(tag, after) =>
      var k := FindChar(rest, '}');
      end := p + k + 1;
      assert rest[1..k] == text[p + 1..p + k] && rest[k + 1..] == text[end..];
    case Visible(run, after) =>
      end := p + |run|;
      assert rest[..|run|] == text[p..end] && rest[|run|..] == text[end..];
  }

  lemma {:induction false} RunsUnfold(text: string, st: TagState, g: Ground)
    requires text != ""
    ensures var seg, runs := NextSegment(text), Runs(text, st, g.base, g.styles);
            && (seg.Block? ==> runs == Runs(seg.rest, ApplyTags(seg.tag, st, g.base, g.styles), g.base, g.styles))
            && (seg.Visible? ==> runs == RunOf(seg.run, st) + Runs(seg.rest, st, g.base, g.styles))
  {
  }

  lemma {:induction false} NothingLeft(text: string, st: TagState, g: Ground, font: string, slot: Slot, c: char)
    ensures !Collected(Runs("", st, g.base, g.styles), font, slot, c)
    ensures !DrawnIn(text, |text|, |text|, g, font, slot, c)
  {
  }

  lemma NothingDrawn(text: string, lo: nat, hi: nat, g: Ground, font: string, slot: Slot, c: char)
    requires lo <= hi < |text| && forall i :: lo <= i <= hi ==> InClosedBlock(text, i)
    ensures !DrawnIn(text, lo, hi + 1, g, font, slot, c)
  {
    hide InClosedBlock, InForce, NormFont, IsShown;
  }

  /**
    The scanner of `parse_dialogue_text` collects a character for a font and slot exactly when
    the character occurs at a visible position with that font and slot in force.
  */
  lemma {:induction false} ScannerMeaning(text: string, p: nat, st: TagState, g: Ground, font: string, slot: Slot, c: char)
    requires p <= |text| && AtRound(text, p, st, g)
    ensures Collected(Runs(text[p..], st, g.base, g.styles), font, slot, c)
            <==> DrawnIn(text, p, |text|, g, font, slot, c)
    decreases |text| - p
  {
    hide *;
    var rest := text[p..];
    if p == |text| {
      assert rest == "";
      NothingLeft(text, st, g, font, slot, c);
    } else {
      var end := SegmentAt(text, p);
      RunsUnfold(rest, st, g);
      match NextSegment(rest)
      case Block(tag, after) =>
        var st' := ApplyTags(tag, st, g.base, g.styles);
        BlockRound(text, p, end - 1, st, g);
        ScannerMeaning(text, end, st', g, font, slot, c);
        DrawnStep(text, p, end, g, font, slot, c);
        NothingDrawn(text, p, end - 1, g, font, slot, c);
      case Visible(run, after) =>
        VisibleRound(text, p, end, st, g, font, slot, c);
        ScannerMeaning(text, end, st, g, font, slot, c);
        DrawnStep(text, p, end, g, font, slot, c);
        CollectedAppend(RunOf(run, st), Runs(after, st, g.base, g.styles), font, slot, c);
    }
  }

  // ----- Drawings -----

  // The brace at `i` closes a block that turns drawing mode on.
  predicate TurnsOn(text: string, i: nat, g: Ground)
    requires i < |text|
  {
    text[i] == '}' && OpenBlock(text[..i]).Some? && InForce(text[..i], g).level <= 0 && InForce(text[..i + 1], g).level > 0
  }

  function TurnedOn(text: string, lo: nat, hi: nat, g: Ground): nat
    requires lo <= hi <= |text|
  {
    if lo == hi then 0 else TurnedOn(text, lo, hi - 1, g) + if TurnsOn(text, hi - 1, g) then 1 else 0
  }

  lemma {:induction false} TurnedOnParts(text: string, lo: nat, mid: nat, hi: nat, g: Ground)
    requires lo <= mid <= hi <= |text|
    ensures TurnedOn(text, lo, hi, g) == TurnedOn(text, lo, mid, g) + TurnedOn(text, mid, hi, g)
    decreases hi
  {
    hide TurnsOn;
    if mid < hi {
      TurnedOnParts(text, lo, mid, hi - 1, g);
    }
  }

  lemma {:induction false} NeverTurnedOn(text: string, lo: nat, hi: nat, g: Ground)
    requires lo <= hi <= |text| && forall i :: lo <= i < hi ==> !TurnsOn(text, i, g)
    ensures TurnedOn(text, lo, hi, g) == 0
    decreases hi
  {
    hide TurnsOn;
    if lo < hi {
      NeverTurnedOn(text, lo, hi - 1, g);
    }
  }

  lemma {:induction false} OpenKeepsState(text: string, lo: nat, hi: nat, g: Ground)
    requires lo <= hi <= |text| && '}' !in text[lo..hi]
    ensures InForce(text[..hi], g) == InForce(text[..lo], g)
    decreases hi
  {
    if lo < hi {
      var n := hi - 1;
      assert text[lo..n] <= text[lo..hi] && text[..hi][..n] == text[..n];
      assert text[..hi][n] == text[n] == text[lo..hi][n - lo];
      OpenKeepsState(text, lo, n, g);
    }
  }

  lemma {:induction false} BlockTurnsOn(text: string, p: nat, close: nat, st: TagState, g: Ground)
    requires AtRound(text, p, st, g) && p < close < |text|
    requires text[p] == '{' && close == p + FindChar(text[p..], '}')
    ensures var st' := ApplyTags(text[p + 1..close], st, g.base, g.styles);
            TurnedOn(text, p, close + 1, g) == if st.level <= 0 && st'.level > 0 then 1 else 0
  {
    var rest := text[p..];
    FindCharFirst(rest, '}');
    assert rest[close - p] == text[close] == '}' && rest[..close - p] == text[p..close];
    assert text[p..][close - p] == '}';
    hide FindChar, ApplyTags, InForce, OpenBlock, InClosedBlock, Between;
    BlockClosed(text, p, close, g);
    BlockOpened(text, p, close);
    OpenKeepsState(text, p, close, g);
    forall i | p <= i < close
      ensures !TurnsOn(text, i, g)
    {
      assert text[i] == text[p..close][i - p];
    }
    NeverTurnedOn(text, p, close, g);
  }

  lemma {:induction false} VisibleTurnsNothingOn(text: string, p: nat, end: nat, st: TagState, g: Ground)
    requires AtRound(text, p, st, g) && p < end <= |text| && NextSegment(text[p..]) == Visible(text[p..end], text[end..])
    ensures TurnedOn(text, p, end, g) == 0
  {
    RunFacts(text, p, end, st, g);
    forall i | p <= i < end
      ensures !TurnsOn(text, i, g)
    {
      assert text[i] == '}' ==> text[i..][0] == '}';
    }
    hide TurnsOn;
    NeverTurnedOn(text, p, end, g);
  }

  lemma {:induction false} CountUnfold(text: string, st: TagState, g: Ground)
    requires text != ""
    ensures var seg, n := NextSegment(text), DrawingCount(text, st, g.base, g.styles);
            && (seg.Block? ==>
                  var st' := ApplyTags(seg.tag, st, g.base, g.styles);
                  n == (if st.level <= 0 && st'.level > 0 then 1 else 0) + DrawingCount(seg.rest, st', g.base, g.styles))
            && (seg.Visible? ==> n == DrawingCount(seg.rest, st, g.base, g.styles))
  {
  }

  lemma {:induction false} NothingCounted(text: string, st: TagState, g: Ground)
    ensures DrawingCount("", st, g.base, g.styles) == 0 && TurnedOn(text, |text|, |text|, g) == 0
  {
  }

  /** The scanner counts a drawing for every closed block that turns drawing mode on. */
  lemma {:induction false} DrawingMeaning(text: string, p: nat, st: TagState, g: Ground)
    requires p <= |text| && AtRound(text, p, st, g)
    ensures DrawingCount(text[p..], st, g.base, g.styles) == TurnedOn(text, p, |text|, g)
    decreases |text| - p
  {
    hide *;
    var rest := text[p..];
    if p == |text| {
      assert rest == "";
      NothingCounted(text, st, g);
    } else {
      var end := SegmentAt(text, p);
      CountUnfold(rest, st, g);
      TurnedOnParts(text, p, end, |text|, g);
      match NextSegment(rest)
      case Block(tag, after) =>
        var st' := ApplyTags(tag, st, g.base, g.styles);
        BlockRound(text, p, end - 1, st, g);
        BlockTurnsOn(text, p, end - 1, st, g);
        DrawingMeaning(text, end, st', g);
      case Visible(run, after) =>
        VisibleRound(text, p, end, st, g, "", Normal, ' ');
        VisibleTurnsNothingOn(text, p, end, st, g);
        DrawingMeaning(text, end, st, g);
    }
  }

  // ----- Usages -----

  // What the table of usages holds after some runs.
  lemma {:induction false} UsagesOfRuns(u: Usages, runs: seq<Run>, font: string, slot: Slot, c: char)
    ensures c in Listed(UsageOf(AddRuns(u, runs), font), slot) <==> c in Listed(UsageOf(u, font), slot) || Collected(runs, font, slot, c)
    decreases |runs|
  {
    if runs != [] {
      var run, rest := runs[0], runs[1..];
      UsagesOfRuns(AddRun(u, run), rest, font, slot, c);
      assert runs == [run] + rest;
      CollectedAppend([run], rest, font, slot, c);
      CollectedOne(run, font, slot, c);
    }
  }

  lemma CollectedOne(run: Run, font: string, slot: Slot, c: char)
    ensures Collected([run], font, slot, c) <==> run.font == font && run.slot == slot && c in Shown(run.text)
  {
    hide Shown;
    assert [run][0] == run;
  }

  /** The usages a whole Text field adds, position by position. */
  lemma {:induction false} DialogueMeaning(text: string, g: Ground, u: Usages, font: string, slot: Slot, c: char)
    ensures c in Listed(UsageOf(AddRuns(u, Runs(text, TagState(g.base, 0), g.base, g.styles)), font), slot)
            <==> c in Listed(UsageOf(u, font), slot) || DrawnIn(text, 0, |text|, g, font, slot, c)
  {
    var st := TagState(g.base, 0);
    assert text[..0] == "" && text[0..] == text;
    ScannerMeaning(text, 0, st, g, font, slot, c);
    hide *;
    UsagesOfRuns(u, Runs(text, st, g.base, g.styles), font, slot, c);
  }

  // ----- The whole script -----

  // The line is an event that draws `c` with this font and slot, read in the given state.
  predicate LineDraws(s: Script, line: string, font: string, slot: Slot, c: char) {
    && Header(line) == None && !InStyles(s.section) && s.section == "events"
    && StripPrefixCi(Trim(line), "Format:") == None
    && match DialogueOf(s, line)
       case None => false
       case Some((text, g)) => DrawnIn(text, 0, |text|, g, font, slot, c)
  }

  lemma LineMeaning(s: Script, line: string, font: string, slot: Slot, c: char)
    ensures Collected(ScriptLine(s, line).runs, font, slot, c)
            <==> Collected(s.runs, font, slot, c) || LineDraws(s, line, font, slot, c)
  {
    hide DialogueOf, Runs, DrawnIn, Collected, StripPrefixCi, Trim, SectionHeader, DefineStyle, FormatFields, SplitFields;
    match DialogueOf(s, line)
    case None =>
    case Some((text, g)) =>
      var st := TagState(g.base, 0);
      assert text[..0] == "" && text[0..] == text;
      ScannerMeaning(text, 0, st, g, font, slot, c);
      CollectedAppend(s.runs, Runs(text, st, g.base, g.styles), font, slot, c);
  }

  predicate SomeLineDraws(s: Script, lines: seq<string>, font: string, slot: Slot, c: char) {
    exists k :: 0 <= k < |lines| && LineDraws(ScriptLines(s, lines[..k]), lines[k], font, slot, c)
  }

  lemma {:induction false} LinesMeaning(s: Script, lines: seq<string>, font: string, slot: Slot, c: char)
    ensures Collected(ScriptLines(s, lines).runs, font, slot, c)
            <==> Collected(s.runs, font, slot, c) || SomeLineDraws(s, lines, font, slot, c)
    decreases |lines|
  {
    if lines != [] {
      LineMeaning(s, lines[0], font, slot, c);
      FirstLineDraws(s, lines, font, slot, c);
      hide Collected, LineDraws, SomeLineDraws, ScriptLine;
      LinesMeaning(ScriptLine(s, lines[0]), lines[1..], font, slot, c);
    }
  }

  lemma FirstLineDraws(s: Script, lines: seq<string>, font: string, slot: Slot, c: char)
    requires lines != []
    ensures SomeLineDraws(s, lines, font, slot, c) <==>
            LineDraws(s, lines[0], font, slot, c) || SomeLineDraws(ScriptLine(s, lines[0]), lines[1..], font, slot, c)
  {
    hide LineDraws, ScriptLine;
    var s', rest := ScriptLine(s, lines[0]), lines[1..];
    forall k | 0 <= k < |rest|
      ensures ScriptLines(s, lines[..k + 1]) == ScriptLines(s', rest[..k]) && lines[k + 1] == rest[k]
    {
      assert lines[..k + 1][1..] == rest[..k];
    }
    assert ScriptLines(s, lines[..0]) == s;
    if SomeLineDraws(s', rest, font, slot, c) {
      var k :| 0 <= k < |rest| && LineDraws(ScriptLines(s', rest[..k]), rest[k], font, slot, c);
      assert LineDraws(ScriptLines(s, lines[..k + 1]), lines[k + 1], font, slot, c);
    }
    if SomeLineDraws(s, lines, font, slot, c) {
      var k :| 0 <= k < |lines| && LineDraws(ScriptLines(s, lines[..k]), lines[k], font, slot, c);
      if k > 0 {
        var j := k - 1;
        assert lines[..j + 1] == lines[..k] && LineDraws(ScriptLines(s', rest[..j]), rest[j], font, slot, c);
      }
    }
  }

  /**
    `parse_subtitle` lists a character for a font and slot exactly when some dialogue line shows
    it with that font and slot in force.
  */
  lemma {:induction false} ScriptMeaning(text: string, font: string, slot: Slot, c: char)
    ensures c in Listed(UsageOf(AddRuns(map[], Parsed(text).runs), font), slot)
            <==> SomeLineDraws(EmptyScript, Lines(text), font, slot, c)
  {
    LinesMeaning(EmptyScript, Lines(text), font, slot, c);
    UsagesOfRuns(map[], Parsed(text).runs, font, slot, c);
  }
}
