/**
  The theorem on meaning for whole scripts: interpreting the text the subset pass writes gives the
  original's usages under the renamed fonts.
*/
module ScriptMeaning {
  import opened Text
  import opened FontNames
  import opened Document
  import opened LineFacts
  import opened RoundTrip
  import opened Interpreter
  import opened Semantics
  import opened TagMeaning
  import opened TextMeaning
  import opened Meaning

  // The conditions on one line, read by the interpreter in the given state.
  predicate GoodLine(s: Script, line: string, m: Renaming) {
    Header(line) == None ==>
      if InStyles(s.section) then
        StripPrefixCi(Trim(line), "Format:") == None && StripPrefixCi(Trim(line), StylePrefix).Some? ==>
          GoodFields(ReadStyle(line, StyleFieldCount(s.styleFormat)), s.styleFormat, m)
      else s.section == "events" ==>
        if StripPrefixCi(Trim(line), "Format:").Some? then NoHits(line, |line|, m)
        else DialogueOf(s, line).Some? ==> GoodDialogue(s, line, DialogueOf(s, line).value.0, m)
  }

  predicate GoodScript(s: Script, lines: seq<string>, m: Renaming)
    decreases |lines|
  {
    lines == [] || (GoodLine(s, lines[0], m) && GoodScript(ScriptLine(s, lines[0]), lines[1..], m))
  }

  // The interpreter on the original, the interpreter on the rewritten text, and the pass itself.
  predicate Coupled(st: Pass, s: Script, s': Script, m: Renaming) {
    && st.section == s.section && (if st.skipping then s.section == "fonts" else s'.section == s.section)
    && st.format == s.styleFormat == s'.styleFormat && s'.eventFormat == s.eventFormat
    && SettledStyles(s.styles, m) && s'.styles == RenamedStyles(s.styles, m)
    && s'.runs == RenamedRuns(s.runs, m) && s'.drawings == s.drawings
  }

  lemma FontsIsIdle()
    ensures !InStyles("fonts") && !InStyles("script info")
  {
    ShortOf("fonts");
    ShortOf("script info");
  }

  lemma ShortOf(section: string)
    requires section == "fonts" || section == "script info"
    ensures !InStyles(section)
  {
    forall i | 0 <= i <= |section|
      ensures !StartsWith(section[i..], "styles")
    {
      if i + 6 <= |section| {
        assert section[i..][..6][1] == section[i + 1] && section[i..][..6][0] == section[i];
      }
    }
  }

  // A line of a section the interpreter has no use for.
  lemma IdleLine(s: Script, line: string)
    requires Header(line) == None && !InStyles(s.section) && s.section != "events"
    ensures ScriptLine(s, line) == s
  {
  }

  lemma {:induction false} IdleLines(s: Script, lines: seq<string>)
    requires forall i :: 0 <= i < |lines| ==> Header(lines[i]) == None
    requires !InStyles(s.section) && s.section != "events"
    ensures ScriptLines(s, lines) == s
    decreases |lines|
  {
    if lines != [] {
      IdleLine(s, lines[0]);
      hide ScriptLine, InStyles, Header;
      IdleLines(s, lines[1..]);
    }
  }

  lemma HeaderLine(s: Script, line: string)
    requires Header(line).Some?
    ensures ScriptLine(s, line) == s.(section := Header(line).value)
  {
  }

  lemma {:induction false} FontSectionRead(s: Script, fontLines: seq<string>)
    requires SkippedWhole(fontLines) && fontLines != []
    ensures ScriptLines(s, fontLines) == s.(section := "fonts")
  {
    FontsIsIdle();
    HeaderLine(s, fontLines[0]);
    hide Header, InStyles, ScriptLine;
    IdleLines(s.(section := "fonts"), fontLines[1..]);
  }

  lemma {:induction false} ScriptLinesAppend(s: Script, a: seq<string>, b: seq<string>)
    ensures ScriptLines(s, a + b) == ScriptLines(ScriptLines(s, a), b)
    decreases |a|
  {
    hide ScriptLine;
    if a == [] {
      assert a + b == b;
    } else {
      assert (a + b)[0] == a[0] && (a + b)[1..] == a[1..] + b;
      ScriptLinesAppend(ScriptLine(s, a[0]), a[1..], b);
    }
  }

  lemma {:induction false} ScriptOne(s: Script, line: string)
    ensures ScriptLines(s, [line]) == ScriptLine(s, line)
  {
    assert [line][1..] == [];
    assert ScriptLines(ScriptLine(s, line), []) == ScriptLine(s, line);
  }

  predicate GoodSubset(env: SubsetEnv) {
    && GoodNames(env.names) && SkippedWhole(env.fontLines)
    && (forall i :: 0 <= i < |env.comments| ==> Header(env.comments[i]) == None)
  }

  // ----- One line -----

  lemma {:induction false} HeaderKept(st: Pass, s: Script, s': Script, line: string, env: SubsetEnv)
    requires GoodSubset(env) && Coupled(st, s, s', env.names) && Header(line).Some?
    ensures var (out, next) := SubsetLine(st, line, env);
            Coupled(next, ScriptLine(s, line), ScriptLines(s', out), env.names)
  {
    var h := Header(line).value;
    var (out, next) := SubsetLine(st, line, env);
    HeaderLine(s, line);
    hide Header, ScriptLine, InStyles, RenamedStyles, RenamedRuns, SettledStyles;
    if h != "fonts" {
      var insert := h == "events" && !st.inserted && env.fontLines != [];
      var comment := h == "script info" && !st.commented;
      var before, after := if insert then env.fontLines else [], if comment then env.comments else [];
      assert out == before + [line] + after;
      EnterRead(s', before, line, h, after, env);
    } else {
      assert out == [] && ScriptLines(s', out) == s';
    }
  }

  lemma {:induction false} EnterRead(s: Script, before: seq<string>, line: string, h: string, after: seq<string>, env: SubsetEnv)
    requires GoodSubset(env) && Header(line) == Some(h)
    requires before == [] || (before == env.fontLines && env.fontLines != [])
    requires after == [] || (after == env.comments && h == "script info")
    ensures ScriptLines(s, before + [line] + after) == s.(section := h)
  {
    FontsIsIdle();
    if before != [] {
      FontSectionRead(s, before);
    }
    var s1 := ScriptLines(s, before);
    assert s1.(section := h) == s.(section := h);
    HeaderLine(s1, line);
    hide Header, ScriptLine, InStyles, SkippedWhole, GoodNames;
    ScriptOne(s1, line);
    if after != [] {
      IdleLines(s.(section := h), after);
    }
    ScriptLinesAppend(s, before, [line]);
    ScriptLinesAppend(s, before + [line], after);
  }

  lemma StylesLine(s: Script, line: string)
    requires Header(line) == None && InStyles(s.section)
    ensures var format, style := StripPrefixCi(Trim(line), "Format:"), StripPrefixCi(Trim(line), StylePrefix);
            ScriptLine(s, line) ==
            if format.Some? then s.(styleFormat := FormatFields(format.value))
            else if style.Some? then
              s.(styles := DefineStyle(s.styles, s.styleFormat, ReadStyle(line, StyleFieldCount(s.styleFormat))))
            else s
  {
    hide Trim, StripPrefixCi, FormatFields, DefineStyle, SplitFields, InStyles, SectionHeader;
  }

  // A renamed Style line reads as the renamed fields.
  lemma RewrittenStyle(line: string, format: seq<string>, m: Renaming)
    requires GoodNames(m) && Header(line) == None
    requires StripPrefixCi(Trim(line), "Format:") == None && StripPrefixCi(Trim(line), StylePrefix).Some?
    ensures var out, n, k := RewriteStyleLine(line, format, m), StyleFieldCount(format), FontIndex(format);
            && Header(out) == None
            && StripPrefixCi(Trim(out), "Format:") == None && StripPrefixCi(Trim(out), StylePrefix).Some?
            && var fields := ReadStyle(line, n);
               ReadStyle(out, n) == fields[k := Renamed(m, fields[k])] && CleanFields(fields)
  {
    SameStyle(line, format);
    StyleFieldsFacts(line, format);
    var (lead, fields) := StyleFields(line, format).value;
    var k := FontIndex(format);
    var key := LookupName(fields[k]);
    hide StyleFields, LookupName, ReadStyle, StyleLine, GoodNames, StripPrefixCi, Trim, Header;
    if key in m {
      var fields' := fields[k := m[key]];
      NamesAreClean(m);
      CleanFieldUpdate(fields, k, m[key]);
      StyleLineStarts(lead, fields');
      StyleStartFacts(StyleLine(lead, fields'));
      StyleFieldsOfLine(lead, fields', format);
      SameStyle(StyleLine(lead, fields'), format);
    } else {
      assert fields[k := fields[k]] == fields;
    }
  }

  lemma NamesAreClean(m: Renaming)
    requires GoodNames(m)
    ensures forall k :: k in m ==> CleanName(m[k])
  {
  }

  lemma StyleLineKept(st: Pass, s: Script, s': Script, line: string, m: Renaming)
    requires GoodNames(m) && Coupled(st, s, s', m) && !st.skipping && Header(line) == None
    requires InStyles(s.section) && GoodLine(s, line, m)
    ensures var (out, next) := StyleStep(st, line, m);
            Coupled(next, ScriptLine(s, line), ScriptLine(s', out), m)
  {
    StylesLine(s, line);
    var format, style := StripPrefixCi(Trim(line), "Format:"), StripPrefixCi(Trim(line), StylePrefix);
    if format == None && style.Some? {
      var fields := ReadStyle(line, StyleFieldCount(s.styleFormat));
      var out := RewriteStyleLine(line, s.styleFormat, m);
      RewrittenStyle(line, s.styleFormat, m);
      StylesLine(s', out);
      DefineKept(s.styles, fields, s.styleFormat, m);
      hide Trim, StripPrefixCi, FormatFields, DefineStyle, ReadStyle, InStyles, SectionHeader, ScriptLine, RewriteStyleLine;
      hide RenamedStyles, RenamedRuns, SettledStyles, GoodFields, GoodNames, FontIndex;
    } else {
      StylesLine(s', line);
      hide Trim, StripPrefixCi, FormatFields, DefineStyle, ReadStyle, InStyles, SectionHeader, ScriptLine, RewriteStyleLine;
      hide RenamedStyles, RenamedRuns, SettledStyles, GoodFields, GoodNames;
    }
  }

  lemma EventsLine(s: Script, line: string)
    requires Header(line) == None && !InStyles(s.section) && s.section == "events"
    ensures var format, dialogue := StripPrefixCi(Trim(line), "Format:"), DialogueOf(s, line);
            ScriptLine(s, line) ==
            if format.Some? then s.(eventFormat := FormatFields(format.value))
            else if dialogue.Some? then AddDialogue(s, dialogue.value.0, dialogue.value.1) else s
  {
    hide Trim, StripPrefixCi, FormatFields, DialogueOf, InStyles, SectionHeader, AddDialogue;
  }

  lemma NoBackslash(p: string, t: string)
    requires Lower(t) == Lower(p) && (p == "Format:" || p == DialoguePrefix)
    ensures '\\' !in t
  {
    assert forall i :: 0 <= i < |p| ==> LowerChar(p[i]) != '\\';
    assert forall i :: 0 <= i < |t| ==> LowerChar(t[i]) == Lower(t)[i] == LowerChar(p[i]);
    assert LowerChar('\\') == '\\';
  }

  // Renaming does not put a prefix at the front of a text.
  lemma {:induction false} NoNewPrefix(t: string, p: string, m: Renaming)
    requires p == "Format:" || p == DialoguePrefix
    requires StripPrefixCi(t, p) == None
    ensures StripPrefixCi(RewriteFnTags(t, m), p) == None
  {
    var u := RewriteFnTags(t, m);
    PrefixOf(t, p);
    PrefixOf(u, p);
    hide StripPrefixCi, RewriteFnTags, Lower;
    if |p| <= |u| && Lower(u[..|p|]) == Lower(p) {
      NoBackslash(p, u[..|p|]);
      RewritePlainPrefix(t, m, |p|);
    }
  }

  lemma {:induction false} RewriteTrimStart(line: string, m: Renaming)
    ensures TrimStart(RewriteFnTags(line, m)) == RewriteFnTags(TrimStart(line), m)
  {
    var a := TrimStartFacts(line);
    var start := TrimStart(line);
    BlankHasNoTags(a);
    RewriteWithoutTags(a, start, m);
    RewriteKeepsFirst(start, m);
    TrimStartOfBlank(a, RewriteFnTags(start, m));
  }

  // A line that is not read as a dialogue line is not read as one after the renaming.
  lemma {:induction false} NoDialogueKept(s: Script, s': Script, line: string, m: Renaming)
    requires s'.eventFormat == s.eventFormat && DialogueOf(s, line) == None
    ensures DialogueOf(s', RewriteFnTags(line, m)) == None
  {
    RewriteTrimStart(line, m);
    if StripPrefixCi(TrimStart(line), DialoguePrefix) == None {
      NoNewPrefix(TrimStart(line), DialoguePrefix, m);
    }
    hide TrimStart, StripPrefixCi, RewriteFnTags, SplitFields;
  }

  lemma {:induction false} NoFormatKept(line: string, m: Renaming)
    requires CleanNames(m) && StripPrefixCi(Trim(line), "Format:") == None
    ensures StripPrefixCi(Trim(RewriteFnTags(line, m)), "Format:") == None
  {
    RewriteTrim(line, m);
    NoNewPrefix(Trim(line), "Format:", m);
  }

  lemma {:induction false} AllKept(line: string, m: Renaming)
    requires NoHits(line, |line|, m)
    ensures RewriteFnTags(line, m) == line
  {
    RewriteSkips(line, |line|, m);
    assert line[..|line|] + "" == line;
  }

  lemma ArialIsNormal(m: Renaming)
    ensures Settled("Arial", m)
  {
    TrimOfTrimmed("Arial");
    assert TrimAts("Arial") == "Arial";
  }

  lemma GroundSettled(s: Script, line: string, m: Renaming)
    requires SettledStyles(s.styles, m) && DialogueOf(s, line).Some?
    ensures SettledGround(DialogueOf(s, line).value.1, m)
  {
    ArialIsNormal(m);
    hide Settled, SplitFields, Trim, StripPrefixCi;
  }

  lemma {:induction false} DialogueLineKept(st: Pass, s: Script, s': Script, line: string, m: Renaming)
    requires GoodNames(m) && Coupled(st, s, s', m)
    requires DialogueOf(s, line).Some? && GoodDialogue(s, line, DialogueOf(s, line).value.0, m)
    ensures var (text, g) := DialogueOf(s, line).value;
            var again := DialogueOf(s', RewriteFnTags(line, m));
            && again.Some?
            && Coupled(st, AddDialogue(s, text, g), AddDialogue(s', again.value.0, again.value.1), m)
  {
    var (text, g) := DialogueOf(s, line).value;
    assert GoodText(text, m) && s'.eventFormat == s.eventFormat && s'.styles == RenamedStyles(s.styles, m);
    assert SettledStyles(s.styles, m);
    hide *;
    DialogueKept(s, s', line, m);
    GroundSettled(s, line, m);
    AddedKept(st, s, s', text, g, m);
  }

  lemma {:induction false} AddedKept(st: Pass, s: Script, s': Script, text: string, g: Ground, m: Renaming)
    requires GoodNames(m) && Coupled(st, s, s', m) && GoodText(text, m) && SettledGround(g, m)
    ensures Coupled(st, AddDialogue(s, text, g), AddDialogue(s', RewriteFnTags(text, m), RenamedGround(g, m)), m)
  {
    var st0 := TagState(g.base, 0);
    assert Settled(g.base.font, m);
    hide RewriteFnTags, GoodText, Settled, Runs, DrawingCount, GoodNames, RenamedStyles, RenamedRuns, SettledStyles, SettledGround;
    TextKept(text, st0, g, m);
    RenamedRunsAppend(s.runs, Runs(text, st0, g.base, g.styles), m);
  }

  lemma {:induction false} EventLineKept(st: Pass, s: Script, s': Script, line: string, m: Renaming)
    requires GoodNames(m) && Coupled(st, s, s', m) && !st.skipping && Header(line) == None
    requires !InStyles(s.section) && s.section == "events" && GoodLine(s, line, m)
    ensures Coupled(st, ScriptLine(s, line), ScriptLine(s', RewriteFnTags(line, m)), m)
  {
    var out := RewriteFnTags(line, m);
    RewriteNoHeader(line, m);
    EventsLine(s, line);
    EventsLine(s', out);
    hide ScriptLine, Header, InStyles, RewriteFnTags, DialogueOf, AddDialogue, FormatFields, RenamedStyles, RenamedRuns, SettledStyles;
    hide GoodDialogue, NoHits, Trim, StripPrefixCi;
    if StripPrefixCi(Trim(line), "Format:").Some? {
      AllKept(line, m);
    } else {
      NoFormatKept(line, m);
      if DialogueOf(s, line).Some? {
        DialogueLineKept(st, s, s', line, m);
      } else {
        NoDialogueKept(s, s', line, m);
      }
    }
  }

  lemma SkippedLineKept(st: Pass, s: Script, s': Script, line: string, m: Renaming)
    requires Coupled(st, s, s', m) && Header(line) == None
    requires st.skipping || st.section == "script info"
    ensures Coupled(st, ScriptLine(s, line), s', m)
    ensures !st.skipping ==> ScriptLine(s', line) == s'
  {
    FontsIsIdle();
    IdleLine(s, line);
    hide InStyles, Header, ScriptLine, RenamedStyles, RenamedRuns, SettledStyles;
    if !st.skipping {
      IdleLine(s', line);
    }
  }

  // Every line keeps the interpreters and the pass together.
  lemma {:induction false} LineKept(st: Pass, s: Script, s': Script, line: string, env: SubsetEnv)
    requires GoodSubset(env) && Coupled(st, s, s', env.names) && GoodLine(s, line, env.names)
    ensures var (out, next) := SubsetLine(st, line, env);
            Coupled(next, ScriptLine(s, line), ScriptLines(s', out), env.names)
  {
    if Header(line).Some? {
      HeaderKept(st, s, s', line, env);
    } else {
      var (out, next) := SubsetLine(st, line, env);
      FontsIsIdle();
      hide Header, IsComment, RewriteFnTags, GoodLine, InStyles, StyleStep, ScriptLine, RenamedStyles, RenamedRuns, SettledStyles, GoodNames;
      if st.skipping || (st.section == "script info" && IsComment(line)) {
        SkippedLineKept(st, s, s', line, env.names);
        assert out == [] && ScriptLines(s', out) == s';
      } else {
        ScriptOne(s', out[0]);
        assert out == [out[0]];
        if InStyles(st.section) {
          StyleLineKept(st, s, s', line, env.names);
        } else if st.section == "events" {
          EventLineKept(st, s, s', line, env.names);
        } else {
          OtherLineKept(st, s, s', line, env.names);
        }
      }
    }
  }

  lemma OtherLineKept(st: Pass, s: Script, s': Script, line: string, m: Renaming)
    requires Coupled(st, s, s', m) && !st.skipping && Header(line) == None
    requires !InStyles(st.section) && st.section != "events"
    ensures Coupled(st, ScriptLine(s, line), ScriptLine(s', line), m)
  {
    IdleLine(s, line);
    IdleLine(s', line);
  }

  lemma {:induction false} LinesKept(st: Pass, s: Script, s': Script, lines: seq<string>, env: SubsetEnv)
    requires GoodSubset(env) && Coupled(st, s, s', env.names) && GoodScript(s, lines, env.names)
    ensures var (out, next) := SubsetLines(st, lines, env);
            Coupled(next, ScriptLines(s, lines), ScriptLines(s', out), env.names)
    decreases |lines|
  {
    if lines != [] {
      var (out, next) := SubsetLine(st, lines[0], env);
      LineKept(st, s, s', lines[0], env);
      hide SubsetLine, ScriptLine, Coupled, GoodSubset, GoodLine;
      LinesKept(next, ScriptLine(s, lines[0]), ScriptLines(s', out), lines[1..], env);
      ScriptLinesAppend(s', out, SubsetLines(next, lines[1..], env).0);
    }
  }

  // What the interpreter keeps of the whole result.
  lemma {:induction false} ResultKept(lines: seq<string>, env: SubsetEnv)
    requires GoodSubset(env) && GoodScript(EmptyScript, lines, env.names)
    ensures var p, p' := ScriptLines(EmptyScript, lines), ScriptLines(EmptyScript, SubsetResult(lines, env));
            p'.runs == RenamedRuns(p.runs, env.names) && p'.drawings == p.drawings
  {
    var (out, end) := SubsetLines(FirstPass, lines, env);
    StartsCoupled(env.names);
    LinesKept(FirstPass, EmptyScript, EmptyScript, lines, env);
    if !end.inserted {
      ScriptLinesAppend(EmptyScript, out, env.fontLines);
      if env.fontLines != [] {
        FontSectionRead(ScriptLines(EmptyScript, out), env.fontLines);
      }
    }
    hide SubsetLines, ScriptLine, GoodSubset, GoodScript, RenamedRuns, RenamedStyles, SettledStyles;
  }

  lemma StartsCoupled(m: Renaming)
    ensures Coupled(FirstPass, EmptyScript, EmptyScript, m)
  {
  }

  // ----- The written text -----

  lemma EmptyLine(s: Script)
    ensures ScriptLine(s, "") == s
  {
    TrimOfTrimmed("");
  }

  lemma SubsetLineIsClean(st: Pass, line: string, env: SubsetEnv)
    requires CleanNames(env.names) && CleanLine(line) && CleanLines(env.fontLines) && CleanLines(env.comments)
    ensures CleanLines(SubsetLine(st, line, env).0)
  {
    RewriteCleanLine(line, env.names);
    RewriteStyleCleanLine(line, st.format, env.names);
    hide Header, IsComment, RewriteFnTags, RewriteStyleLine, InStyles, Trim, StripPrefixCi, CleanLine, CleanNames, FormatFields;
  }

  lemma {:induction false} SubsetLinesClean(st: Pass, lines: seq<string>, env: SubsetEnv)
    requires CleanNames(env.names) && CleanLines(lines) && CleanLines(env.fontLines) && CleanLines(env.comments)
    ensures CleanLines(SubsetLines(st, lines, env).0)
    decreases |lines|
  {
    if lines != [] {
      SubsetLineIsClean(st, lines[0], env);
      hide SubsetLine, CleanLine, CleanNames;
      SubsetLinesClean(SubsetLine(st, lines[0], env).1, lines[1..], env);
    }
  }

  lemma EmptyReadBack(nl: string, final: bool)
    requires IsNewline(nl)
    ensures ScriptLines(EmptyScript, Lines(Render([], nl, final))) == ScriptLines(EmptyScript, [])
  {
    EmptyLine(EmptyScript);
    ScriptOne(EmptyScript, "");
    LinesStep("", nl, "");
    hide ScriptLine, CleanLine;
    assert Render([], nl, final) == if final then "" + nl + "" else "";
    assert [""] + Lines("") == [""];
  }

  // Writing the lines and reading them again does not change what the interpreter finds.
  lemma {:induction false} ReadBack(lines: seq<string>, nl: string, final: bool)
    requires CleanLines(lines) && IsNewline(nl)
    ensures ScriptLines(EmptyScript, Lines(Render(lines, nl, final))) == ScriptLines(EmptyScript, lines)
  {
    hide *;
    if lines == [] {
      EmptyReadBack(nl, final);
    } else {
      LinesRender(lines, nl, final);
      var last := lines[|lines| - 1];
      if !final && last == "" {
        var init := lines[..|lines| - 1];
        assert lines == init + [""];
        ScriptLinesAppend(EmptyScript, init, [""]);
        ScriptOne(ScriptLines(EmptyScript, init), "");
        EmptyLine(ScriptLines(EmptyScript, init));
      }
    }
  }

  /**
    Renaming preserves meaning: interpreting the written text gives the original's runs, in order,
    with every font replaced by its new name, and the same number of drawings.
  */
  lemma {:induction false} RenamingKeepsMeaning(text: string, nl: string, env: SubsetEnv)
    requires GoodSubset(env) && CleanLines(env.fontLines) && CleanLines(env.comments) && IsNewline(nl)
    requires GoodScript(EmptyScript, Lines(text), env.names)
    ensures Parsed(SubsetText(text, nl, env)).runs == RenamedRuns(Parsed(text).runs, env.names)
    ensures Parsed(SubsetText(text, nl, env)).drawings == Parsed(text).drawings
  {
    var lines := Lines(text);
    LinesAreClean(text);
    SubsetLinesClean(FirstPass, lines, env);
    FinishClean(SubsetLines(FirstPass, lines, env).0, SubsetLines(FirstPass, lines, env).1, env.fontLines);
    hide Lines, SubsetLines, ScriptLine, Render, CleanLine;
    ReadBack(SubsetResult(lines, env), nl, EndsWithNewline(text));
    ResultKept(lines, env);
  }

  lemma FinishClean(out: seq<string>, st: Pass, fontLines: seq<string>)
    requires CleanLines(out) && CleanLines(fontLines)
    ensures CleanLines(Finish(out, st, fontLines))
  {
  }

  /**
    The usages of the written text: a renamed font needs exactly the characters that the fonts
    with that new name needed, slot by slot.
  */
  lemma {:induction false} UsagesRenamed(runs: seq<Run>, m: Renaming, font: string, slot: Slot, c: char)
    ensures c in Listed(UsageOf(AddRuns(map[], RenamedRuns(runs, m)), font), slot)
            <==> exists prior :: Renamed(m, prior) == font && c in Listed(UsageOf(AddRuns(map[], runs), prior), slot)
  {
    var runs' := RenamedRuns(runs, m);
    UsagesOfRuns(map[], runs', font, slot, c);
    forall prior
      ensures c in Listed(UsageOf(AddRuns(map[], runs), prior), slot) <==> Collected(runs, prior, slot, c)
    {
      UsagesOfRuns(map[], runs, prior, slot, c);
    }
    hide Shown, Renamed, AddRuns;
    if Collected(runs', font, slot, c) {
      var k :| 0 <= k < |runs'| && runs'[k].font == font && runs'[k].slot == slot && c in Shown(runs'[k].text);
      assert Collected(runs, runs[k].font, slot, c);
    }
    forall prior | Renamed(m, prior) == font && Collected(runs, prior, slot, c)
      ensures Collected(runs', font, slot, c)
    {
      var k :| 0 <= k < |runs| && runs[k].font == prior && runs[k].slot == slot && c in Shown(runs[k].text);
      assert runs'[k].font == font;
    }
  }

  /** The same for `parse_subtitle` on the written text. */
  lemma {:induction false} RenamingKeepsUsages(text: string, nl: string, env: SubsetEnv, font: string, slot: Slot, c: char)
    requires GoodSubset(env) && CleanLines(env.fontLines) && CleanLines(env.comments) && IsNewline(nl)
    requires GoodScript(EmptyScript, Lines(text), env.names)
    ensures c in Listed(UsageOf(AddRuns(map[], Parsed(SubsetText(text, nl, env)).runs), font), slot)
            <==> exists prior ::
                   Renamed(env.names, prior) == font && c in Listed(UsageOf(AddRuns(map[], Parsed(text).runs), prior), slot)
  {
    hide *;
    RenamingKeepsMeaning(text, nl, env);
    UsagesRenamed(Parsed(text).runs, env.names, font, slot, c);
  }
}
