/**
  The interpreter that decides which characters each font needs: override tags, dialogue text and
  the whole script. Its loops are the methods; the functions say what they compute.
*/
module Interpreter {
  import opened Text
  import opened Tags
  import opened FontNames
  import opened Document

  datatype StyleInfo = StyleInfo(font: string, bold: bool, italic: bool)

  type Styles = map<string, StyleInfo>

  // `slot_for_state`
  function SlotOf(s: StyleInfo): Slot {
    if s.bold && s.italic then BoldItalic else if s.bold then Bold else if s.italic then Italic else Normal
  }

  // `parse_boolish_style`
  function Boolish(v: string): bool {
    var t := Trim(v);
    match ParseI32(t)
    case Some(n) => n != 0
    case None => Lower(t) == "true" || Lower(t) == "yes" || Lower(t) == "on"
  }

  // ----- Override tags -----

  // The style in force and the drawing level.
  datatype TagState = TagState(style: StyleInfo, level: int)

  // What a `\b` argument does; a number that is neither 0, 1, -1 nor a bold weight switches bold off.
  function BoldAfter(bold: bool, v: string): bool {
    if v == "" then true
    else
      match ParseI32(v)
      case None => bold
      case Some(n) => (n != 0 && n >= 600) || n == 1 || n == -1
  }

  predicate IsFn(t: string) {
    |t| >= 2 && t[0] == 'f' && t[1] == 'n'
  }

  // One round of the tag loop: the state after it, and what is left of the block.
  function TagStep(tag: string, st: TagState, base: StyleInfo, styles: Styles): (r: (TagState, string))
    requires tag != ""
    ensures |r.1| < |tag|
  {
    var t := tag[1..];
    if tag[0] != '\\' then (st, t)
    else if IsFn(t) then
      var (arg, rest) := ReadTagArg(t[2..]);
      var font := NormFont(arg);
      (if font != "" && font != "0" then st.(style := st.style.(font := font)) else st, rest)
    else if t != "" && t[0] == 'r' then
      var (arg, rest) := ReadTagArg(t[1..]);
      var name := Trim(arg);
      (if name == "" then st.(style := base) else if name in styles then st.(style := styles[name]) else st, rest)
    else if t != "" && t[0] == 'b' then
      var (arg, rest) := ReadTagArg(t[1..]);
      (st.(style := st.style.(bold := BoldAfter(st.style.bold, Trim(arg)))), rest)
    else if t != "" && t[0] == 'i' then
      var (arg, rest) := ReadTagArg(t[1..]);
      (st.(style := st.style.(italic := Boolish(Trim(arg)))), rest)
    else if t != "" && t[0] == 'p' then
      var (arg, rest) := ReadTagArg(t[1..]);
      var n := ParseI32(Trim(arg));
      (st.(level := if n.Some? then n.value else 0), rest)
    else (st, t[FindChar(t, '\\')..])
  }

  function ApplyTags(tag: string, st: TagState, base: StyleInfo, styles: Styles): TagState
    decreases |tag|
  {
    if tag == "" then st
    else
      var (st', rest) := TagStep(tag, st, base, styles);
      ApplyTags(rest, st', base, styles)
  }

  // `apply_override_tags`
  method ApplyOverrideTags(tag: string, state: StyleInfo, level: int, base: StyleInfo, styles: Styles)
    returns (state': StyleInfo, level': int)
    ensures TagState(state', level') == ApplyTags(tag, TagState(state, level), base, styles)
  {
    hide ReadTagArg, NormFont, Trim, ParseI32, Boolish, BoldAfter, FindChar;
    state', level' := state, level;
    var rest := tag;
    while rest != ""
      invariant ApplyTags(rest, TagState(state', level'), base, styles) == ApplyTags(tag, TagState(state, level), base, styles)
      decreases |rest|
    {
      var t := rest[1..];
      if rest[0] != '\\' {
        rest := t;
      } else if IsFn(t) {
        var (arg, next) := ReadTagArg(t[2..]);
        var font := NormFont(arg);
        if font != "" && font != "0" {
          state' := state'.(font := font);
        }
        rest := next;
      } else if t != "" && t[0] == 'r' {
        var (arg, next) := ReadTagArg(t[1..]);
        var name := Trim(arg);
        if name == "" {
          state' := base;
        } else if name in styles {
          state' := styles[name];
        }
        rest := next;
      } else if t != "" && t[0] == 'b' {
        var (arg, next) := ReadTagArg(t[1..]);
        state' := state'.(bold := BoldAfter(state'.bold, Trim(arg)));
        rest := next;
      } else if t != "" && t[0] == 'i' {
        var (arg, next) := ReadTagArg(t[1..]);
        state' := state'.(italic := Boolish(Trim(arg)));
        rest := next;
      } else if t != "" && t[0] == 'p' {
        var (arg, next) := ReadTagArg(t[1..]);
        var n := ParseI32(Trim(arg));
        level' := if n.Some? then n.value else 0;
        rest := next;
      } else {
        rest := t[FindChar(t, '\\')..];
      }
    }
  }

  // ----- Dialogue text -----

  // One round of the text loop: a closed override block, or a run of visible text.
  datatype Segment = Block(tag: string, rest: string) | Visible(run: string, rest: string)

  function NextSegment(text: string): (s: Segment)
    requires text != ""
    ensures |s.rest| < |text|
  {
    var close := FindChar(text, '}');
    if text[0] == '{' && close < |text| then Block(text[1..close], text[close + 1..])
    else if text[0] == '{' then Visible(text[..1], text[1..])
    else
      var open := FindChar(text, '{');
      Visible(text[..open], text[open..])
  }

  // A stretch of visible text with the font and slot in force for it.
  datatype Run = Run(font: string, slot: Slot, text: string)

  // Text adds nothing in drawing mode, nor under a font without a name.
  function RunOf(run: string, st: TagState): seq<Run> {
    var font := NormFont(st.style.font);
    if st.level <= 0 && run != "" && font != "" then [Run(font, SlotOf(st.style), run)] else []
  }

  function Runs(text: string, st: TagState, base: StyleInfo, styles: Styles): seq<Run>
    decreases |text|
  {
    if text == "" then []
    else
      match NextSegment(text)
      case Block(tag, rest) => Runs(rest, ApplyTags(tag, st, base, styles), base, styles)
      case Visible(run, rest) => RunOf(run, st) + Runs(rest, st, base, styles)
  }

  // How often drawing mode is entered.
  function DrawingCount(text: string, st: TagState, base: StyleInfo, styles: Styles): nat
    decreases |text|
  {
    if text == "" then 0
    else
      match NextSegment(text)
      case Block(tag, rest) =>
        var st' := ApplyTags(tag, st, base, styles);
        (if st.level <= 0 && st'.level > 0 then 1 else 0) + DrawingCount(rest, st', base, styles)
      case Visible(_, rest) => DrawingCount(rest, st, base, styles)
  }

  // ----- Usages -----

  // `FontUsage`
  datatype FontUsage = FontUsage(normal: set<char>, bold: set<char>, italic: set<char>, boldItalic: set<char>) {
    function Add(slot: Slot, chars: set<char>): FontUsage {
      match slot
      case Normal => this.(normal := normal + chars)
      case Bold => this.(bold := bold + chars)
      case Italic => this.(italic := italic + chars)
      case BoldItalic => this.(boldItalic := boldItalic + chars)
    }
  }

  const NoUsage := FontUsage({}, {}, {}, {})

  type Usages = map<string, FontUsage>

  function UsageOf(u: Usages, font: string): FontUsage {
    if font in u then u[font] else NoUsage
  }

  predicate IsEscape(s: string) {
    |s| >= 2 && s[0] == '\\' && (s[1] == 'N' || s[1] == 'n' || s[1] == 'h')
  }

  // The characters a run shows: no control character, and no `\N`, `\n` or `\h`.
  function Shown(run: string): set<char>
    decreases |run|
  {
    if run == "" then {}
    else if IsEscape(run) then Shown(run[2..])
    else (if IsControl(run[0]) then {} else {run[0]}) + Shown(run[1..])
  }

  function AddRun(u: Usages, run: Run): Usages {
    u[run.font := UsageOf(u, run.font).Add(run.slot, Shown(run.text))]
  }

  function AddRuns(u: Usages, runs: seq<Run>): Usages
    decreases |runs|
  {
    if runs == [] then u else AddRuns(AddRun(u, runs[0]), runs[1..])
  }

  lemma {:induction false} AddRunsAppend(u: Usages, a: seq<Run>, b: seq<Run>)
    ensures AddRuns(u, a + b) == AddRuns(AddRuns(u, a), b)
    decreases |a|
  {
    hide AddRun;
    if a == [] {
      assert a + b == b;
    } else {
      assert (a + b)[0] == a[0] && (a + b)[1..] == a[1..] + b;
      AddRunsAppend(AddRun(u, a[0]), a[1..], b);
    }
  }

  // `add_dialogue_text_run`
  method AddDialogueTextRun(text: string, state: StyleInfo, usages: Usages) returns (usages': Usages)
    ensures usages' == AddRuns(usages, RunOf(text, TagState(state, 0)))
  {
    hide NormFont;
    var font := NormFont(state.font);
    if text == "" || font == "" {
      return usages;
    }
    var slot := SlotOf(state);
    var usage := UsageOf(usages, font);
    var i := 0;
    AddNothing(usage, slot);
    while i < |text|
      invariant 0 <= i <= |text|
      invariant usage.Add(slot, Shown(text[i..])) == UsageOf(usages, font).Add(slot, Shown(text))
    {
      hide UsageOf;
      assert text[i..][1..] == text[i + 1..];
      if text[i] == '\\' && i + 1 < |text| && (text[i + 1] == 'N' || text[i + 1] == 'n' || text[i + 1] == 'h') {
        assert text[i..][2..] == text[i + 2..];
        i := i + 2;
        continue;
      }
      if !IsControl(text[i]) {
        AddOne(usage, slot, text[i], Shown(text[i + 1..]));
        usage := usage.Add(slot, {text[i]});
      }
      i := i + 1;
    }
    assert usage.Add(slot, {}) == usage by { AddNothing(usage, slot); }
    usages' := usages[font := usage];
    var run := Run(font, slot, text);
    assert AddRuns(AddRun(usages, run), []) == AddRun(usages, run);
    assert [run][1..] == [];
  }

  lemma AddNothing(usage: FontUsage, slot: Slot)
    ensures usage.Add(slot, {}) == usage
  {
  }

  lemma AddOne(usage: FontUsage, slot: Slot, c: char, more: set<char>)
    ensures usage.Add(slot, {c}).Add(slot, more) == usage.Add(slot, {c} + more)
  {
  }

  // `parse_dialogue_text`; it returns on unclosed braces too, since every round takes a character.
  method ParseDialogueText(text: string, base: StyleInfo, styles: Styles, usages: Usages)
    returns (usages': Usages, drawingCount: nat)
    ensures usages' == AddRuns(usages, Runs(text, TagState(base, 0), base, styles))
    ensures drawingCount == DrawingCount(text, TagState(base, 0), base, styles)
  {
    hide ApplyTags, FindChar, AddRuns;
    var state, level := base, 0;
    usages', drawingCount := usages, 0;
    var rest := text;
    while rest != ""
      invariant AddRuns(usages', Runs(rest, TagState(state, level), base, styles))
                == AddRuns(usages, Runs(text, TagState(base, 0), base, styles))
      invariant drawingCount + DrawingCount(rest, TagState(state, level), base, styles)
                == DrawingCount(text, TagState(base, 0), base, styles)
      decreases |rest|
    {
      var close := FindChar(rest, '}');
      if rest[0] == '{' && close < |rest| {
        var tag := rest[1..close];
        var wasDrawing := level > 0;
        state, level := ApplyOverrideTags(tag, state, level, base, styles);
        if !wasDrawing && level > 0 {
          drawingCount := drawingCount + 1;
        }
        rest := rest[close + 1..];
        continue;
      }
      var end := if rest[0] == '{' then 1 else FindChar(rest, '{');
      ghost var st := TagState(state, level);
      assert NextSegment(rest) == Visible(rest[..end], rest[end..]);
      AddRunsAppend(usages', RunOf(rest[..end], st), Runs(rest[end..], st, base, styles));
      if level <= 0 {
        usages' := AddDialogueTextRun(rest[..end], state, usages');
      } else {
        NoRuns(usages');
      }
      rest := rest[end..];
    }
    NoRuns(usages');
  }

  lemma {:induction false} NoRuns(u: Usages)
    ensures AddRuns(u, []) == u
  {
  }

  // ----- The whole script -----

  // The variables of `parse_subtitle`, with the runs found instead of the table they fill.
  datatype Script = Script(
    section: string, styleFormat: seq<string>, eventFormat: seq<string>, styles: Styles,
    runs: seq<Run>, drawings: nat)

  // The style a dialogue line starts with, and the table `\r` looks up.
  datatype Ground = Ground(base: StyleInfo, styles: Styles)

  const EmptyScript := Script("", [], [], map[], [], 0)

  const Arial := StyleInfo("Arial", false, false)

  function NameIndex(format: seq<string>): nat {
    if Position(format, "name") < |format| then Position(format, "name") else 0
  }

  function BoolField(format: seq<string>, fields: seq<string>, name: string): bool {
    var k := Position(format, name);
    k < |format| && k < |fields| && Boolish(fields[k])
  }

  // The name and style a `Style:` line defines, from its fields.
  function StyleOf(format: seq<string>, fields: seq<string>): Option<(string, StyleInfo)> {
    if |fields| <= FontIndex(format) then None
    else
      var name := if NameIndex(format) < |fields| then Trim(fields[NameIndex(format)]) else "";
      var font := NormFont(Trim(fields[FontIndex(format)]));
      if name == "" || font == "" then None
      else Some((name, StyleInfo(font, BoolField(format, fields, "bold"), BoolField(format, fields, "italic"))))
  }

  function DefineStyle(styles: Styles, format: seq<string>, fields: seq<string>): Styles {
    match StyleOf(format, fields)
    case None => styles
    case Some((name, style)) => styles[name := style]
  }

  // An undefined style falls back to Arial.
  function BaseStyle(styles: Styles, fields: seq<string>, styleIdx: nat): StyleInfo {
    var name := if styleIdx < |fields| then Trim(fields[styleIdx]) else "";
    if name in styles then styles[name] else Arial
  }

  // The Text field of a `Dialogue:` line and what it is read against, when the format has both.
  function DialogueOf(s: Script, line: string): Option<(string, Ground)> {
    var dialogue := StripPrefixCi(TrimStart(line), "Dialogue:");
    var styleIdx, textIdx := Position(s.eventFormat, "style"), Position(s.eventFormat, "text");
    if dialogue.None? || styleIdx == |s.eventFormat| || textIdx == |s.eventFormat| then None
    else
      var fields := SplitFields(TrimStart(dialogue.value), |s.eventFormat|);
      Some((fields[textIdx], Ground(BaseStyle(s.styles, fields, styleIdx), s.styles)))
  }

  function AddDialogue(s: Script, text: string, g: Ground): Script {
    var st := TagState(g.base, 0);
    s.(runs := s.runs + Runs(text, st, g.base, g.styles), drawings := s.drawings + DrawingCount(text, st, g.base, g.styles))
  }

  function ScriptLine(s: Script, line: string): Script {
    var trimmed := Trim(line);
    var h := Header(line);
    if h.Some? then s.(section := h.value)
    else if InStyles(s.section) then
      var format := StripPrefixCi(trimmed, "Format:");
      var style := StripPrefixCi(trimmed, "Style:");
      if format.Some? then s.(styleFormat := FormatFields(format.value))
      else if style.Some? then
        s.(styles := DefineStyle(s.styles, s.styleFormat, SplitFields(Trim(style.value), StyleFieldCount(s.styleFormat))))
      else s
    else if s.section == "events" then
      var format := StripPrefixCi(trimmed, "Format:");
      if format.Some? then s.(eventFormat := FormatFields(format.value))
      else
        match DialogueOf(s, line)
        case None => s
        case Some((text, g)) => AddDialogue(s, text, g)
    else s
  }

  function ScriptLines(s: Script, lines: seq<string>): Script
    decreases |lines|
  {
    if lines == [] then s else ScriptLines(ScriptLine(s, lines[0]), lines[1..])
  }

  function Parsed(text: string): Script {
    ScriptLines(EmptyScript, Lines(text))
  }

  // `parse_subtitle`: the newline, the usages and the number of drawings.
  method ParseSubtitle(text: string) returns (newline: string, usages: Usages, drawingCount: nat)
    ensures newline == DetectNewline(text)
    ensures usages == AddRuns(map[], Parsed(text).runs)
    ensures drawingCount == Parsed(text).drawings
  {
    newline := DetectNewline(text);
    var s := EmptyScript;
    usages, drawingCount := map[], 0;
    var lines := Lines(text);
    hide Lines, ScriptLine;
    NoRuns(usages);
    var i := 0;
    while i < |lines|
      invariant 0 <= i <= |lines|
      invariant ScriptLines(s, lines[i..]) == ScriptLines(EmptyScript, lines)
      invariant usages == AddRuns(map[], s.runs) && drawingCount == s.drawings
    {
      assert lines[i..][0] == lines[i] && lines[i..][1..] == lines[i + 1..];
      s, usages, drawingCount := ParseLine(s, lines[i], usages, drawingCount);
      i := i + 1;
    }
  }

  // One line of `parse_subtitle`, with the usages updated as the source does.
  method ParseLine(s: Script, line: string, usages: Usages, drawingCount: nat)
    returns (s': Script, usages': Usages, drawingCount': nat)
    requires usages == AddRuns(map[], s.runs) && drawingCount == s.drawings
    ensures s' == ScriptLine(s, line)
    ensures usages' == AddRuns(map[], s'.runs) && drawingCount' == s'.drawings
  {
    hide Trim, TrimStart, StripPrefixCi, SectionHeader, Lower, FormatFields, DefineStyle, Runs, DrawingCount, AddRuns, BaseStyle, Contains;
    s', usages', drawingCount' := s, usages, drawingCount;
    var trimmed := Trim(line);
    var header := SectionHeader(trimmed);
    if header.Some? {
      s' := s.(section := Lower(header.value));
    } else if InStyles(s.section) {
      var format, style := StripPrefixCi(trimmed, "Format:"), StripPrefixCi(trimmed, "Style:");
      if format.Some? {
        s' := s.(styleFormat := FormatFields(format.value));
      } else if style.Some? {
        var fields := SplitAssFields(Trim(style.value), StyleFieldCount(s.styleFormat));
        s' := s.(styles := DefineStyle(s.styles, s.styleFormat, fields));
      }
    } else if s.section == "events" {
      var format, dialogue := StripPrefixCi(trimmed, "Format:"), StripPrefixCi(TrimStart(line), "Dialogue:");
      if format.Some? {
        s' := s.(eventFormat := FormatFields(format.value));
      } else if dialogue.Some? && s.eventFormat != [] {
        var fields := SplitAssFields(TrimStart(dialogue.value), |s.eventFormat|);
        var styleIdx, textIdx := Position(s.eventFormat, "style"), Position(s.eventFormat, "text");
        if styleIdx < |s.eventFormat| && textIdx < |s.eventFormat| && textIdx < |fields| {
          var base := BaseStyle(s.styles, fields, styleIdx);
          var runs := Runs(fields[textIdx], TagState(base, 0), base, s.styles);
          AddRunsAppend(map[], s.runs, runs);
          var count: nat;
          usages', count := ParseDialogueText(fields[textIdx], base, s.styles, usages);
          drawingCount' := drawingCount + count;
          s' := s.(runs := s.runs + runs, drawings := drawingCount');
        }
      }
    }
  }
}
