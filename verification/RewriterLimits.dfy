/**
  Where stripping does not undo subsetting: a font that is renamed but not embedded. The script is
  a whole one, with a section of each kind, and the job embeds one of its two fonts and renames both.
  The mapping comments are written from the embedded fonts alone, so that nothing records the second
  name, and the strip job cannot know it.
*/
module RewriterLimits {
  import opened Text
  import opened FontNames
  import opened FontsSection
  import opened Drawings
  import opened Document
  import opened SubsetOutput
  import opened DrawingLines
  import opened Markers
  import opened Jobs
  import opened RewriterTheorem
  import opened NamesShow
  import opened RewriterExact
  import opened Spelling

  /** A name whose new name no comment and no font records does not come back. */
  lemma UnrecordedIsLost(name: string, m: Renaming, r: Renaming)
    requires LookupName(name) in m && m[LookupName(name)] != name && LookupName(m[LookupName(name)]) !in r
    ensures !ComesBack(m, r, name)
  {
  }

  // A script with one line of text, drawn with the font B.
  const Spoken := "Dialogue: {\\fnB}x"
  const Script := ["[Script Info]", "[Events]", Spoken]

  // A is embedded as N, B is renamed to M without being embedded.
  const OneFont := [Font("A", "N", Normal, [])]
  const BothNames: Renaming := map["a" := "N", "b" := "M"]
  const HalfJob := Job(OneFont, BothNames, false, [])
  const OneComment := [Comment("N", "A")]

  lemma {:induction false} LowerOf(c: char)
    requires 'A' <= c <= 'Z'
    ensures LookupName([c]) == [c - 'A' + 'a'] && NormFont([c]) == [c]
  {
    TrimOfTrimmed([c]);
    assert TrimAts([c]) == [c];
    hide Trim, TrimAts;
    assert Lower([c]) == [LowerChar(c)];
  }

  lemma {:induction false} ShortHasNoMarker(s: string)
    requires |s| < 15
    ensures !HasMarker(s)
    decreases |s|
  {
    if s != "" {
      ShortHasNoMarker(s[1..]);
    }
  }

  lemma {:induction false} SpokenParts()
    ensures Spoken == "Dialogue: {" + (FN + "B" + "}x") && FnNames("") == {}
  {
  }

  lemma {:induction false} SpokenNames()
    ensures FnNames(Spoken) == {"B"}
  {
    var p, tag := "Dialogue: {", FN + "B" + "}x";
    SpokenParts();
    hide *;
    NamesAfterPlain(p, tag);
    NamesOfTag("B", "}x");
    NamesAfterPlain("}x", "");
    assert "}x" + "" == "}x";
  }

  lemma {:induction false} SpokenUnmarked()
    ensures !HasMarker(Spoken)
  {
    var p, tag := "Dialogue: {", "\\fnB}x";
    assert Spoken == p + tag;
    ShortHasNoMarker(tag);
    hide HasMarker;
    if HasMarker(Spoken) {
      MarkerPassesPlain(p, tag);
    }
  }

  lemma SpokenKind()
    ensures Header(Spoken) == None && !IsComment(Spoken) && CleanLine(Spoken)
  {
    TrimOfTrimmed(Spoken);
    assert Spoken[..9] == "Dialogue:";
    hide Trim;
    DialogueKind(Spoken);
  }

  lemma HeaderOf(line: string, name: string)
    requires line == "[" + name + "]" && |name| > 0
    ensures Header(line) == Some(Lower(name)) && !IsComment(line)
  {
    TrimOfTrimmed(line);
    assert line[1..|line| - 1] == name;
    assert SectionHeader(line) == Some(name);
    HeaderNotEmpty(line);
  }

  lemma LowerInfo()
    ensures Lower("Script Info") == "script info" && Lower("Events") == "events"
  {
  }

  lemma HeaderFacts()
    ensures Header("[Script Info]") == Some("script info") && !IsComment("[Script Info]")
    ensures Header("[Events]") == Some("events") && !IsComment("[Events]")
  {
    LowerInfo();
    hide *;
    assert "[Script Info]" == "[" + "Script Info" + "]" && "[Events]" == "[" + "Events" + "]";
    HeaderOf("[Script Info]", "Script Info");
    HeaderOf("[Events]", "Events");
  }

  function ScriptText(): string {
    Render(Script, "\n", true)
  }

  lemma TextFacts()
    ensures Lines(ScriptText()) == Script && EndsWithNewline(ScriptText())
  {
    SpokenKind();
    assert CleanLines(Script);
    hide Lines, Render, CleanLine;
    LinesRender(Script, "\n", true);
    RenderEnding(Script, "\n", true);
  }

  lemma NamesFacts()
    ensures LookupName("A") == "a" && LookupName("B") == "b" && LookupName("M") == "m" && LookupName("N") == "n"
    ensures CleanName("M") && CleanName("N") && GoodOriginal("A")
  {
    LowerOf('A');
    LowerOf('B');
    LowerOf('M');
    LowerOf('N');
    hide LookupName;
    assert ['A'] == "A" && ['B'] == "B" && ['M'] == "M" && ['N'] == "N";
  }

  lemma {:induction false} CommentFacts()
    ensures FontComments(OneFont, {}) == OneComment && CommentMap(map[], OneComment) == map["n" := "A"]
  {
    NamesFacts();
    hide LookupName, CleanName, GoodOriginal, Comment, AddComment;
    var f := OneFont[0];
    assert OneFont[1..] == [] && OneComment[1..] == [];
    assert FontComments([], {"n"}) == [];
    AddPrinted(map[], "N", "A");
  }

  lemma {:induction false} JobFacts()
    ensures Embedded(ScriptText(), HalfJob) == OneFont && BaseText(ScriptText(), HalfJob) == (ScriptText(), [])
    ensures GoodJob(ScriptText(), HalfJob) && IsComments(OneComment, OneFont, BothNames)
  {
    CommentFacts();
    NamesFacts();
    hide FontComments, CleanName, GoodOriginal, LookupName, Comment, ScriptText;
  }

  lemma {:induction false} BlockFacts()
    ensures GoodBlocks(BlocksOf(OneFont))
  {
    assert BlocksOf(OneFont) == [Block("N_0.ttf", [])] by {
      assert OneFont[1..] == [] && "N" + Suffix(Normal) == "N_0.ttf";
    }
    TrimOfTrimmed("N_0.ttf");
  }

  lemma {:induction false} FirstOfLines(at: Cursor, lines: seq<string>, m: Renaming, r: Renaming)
    requires lines != []
    ensures AllShaped(at, lines, false) <==> ShapedLine(at, lines[0], false) && AllShaped(Advance(at, lines[0]), lines[1..], false)
    ensures AllNamesBack(at, lines, false, m, r) <==>
              NamesBack(at, lines[0], false, m, r) && AllNamesBack(Advance(at, lines[0]), lines[1..], false, m, r)
  {
  }

  lemma {:induction false} ThreeLines(at: Cursor, a: string, b: string, c: string, m: Renaming, r: Renaming)
    ensures var at1 := Advance(at, a);
            var at2 := Advance(at1, b);
            && (AllShaped(at, [a, b, c], false) <==> ShapedLine(at, a, false) && ShapedLine(at1, b, false) && ShapedLine(at2, c, false))
            && (AllNamesBack(at, [a, b, c], false, m, r) ==> NamesBack(at2, c, false, m, r))
  {
    var at1 := Advance(at, a);
    FirstOfLines(at, [a, b, c], m, r);
    FirstOfLines(at1, [b, c], m, r);
    FirstOfLines(Advance(at1, b), [c], m, r);
    assert AllShaped(Advance(Advance(at1, b), c), [], false) && [c][1..] == [];
    hide *;
    assert [a, b, c][1..] == [b, c] && [b, c][1..] == [c];
  }

  lemma AtEvents()
    ensures Advance(Advance(AtStart, Script[0]), Script[1]).section == "events"
  {
    HeaderFacts();
    hide Header, DrawLine, Trim, StripPrefixCi, InStyles, FormatFields;
  }

  lemma HeaderShaped(at: Cursor, line: string)
    requires Header(line).Some? && Header(line) != Some("fonts") && !IsComment(line)
    ensures ShapedLine(at, line, false)
  {
    hide Header, IsComment;
  }

  lemma SpokenShaped(at: Cursor, m: Renaming, r: Renaming)
    requires at.section == "events"
    ensures ShapedLine(at, Spoken, false)
    ensures NamesBack(at, Spoken, false, m, r) <==> ComesBack(m, r, "B")
  {
    SpokenKind();
    SpokenUnmarked();
    SpokenNames();
    NamesBackOf(Spoken, m, r);
    StylesAreNotEvents("events");
    hide Header, IsComment, HasMarker, NamesComeBack, FnNames, ComesBack, Contains, Trim, StripPrefixCi, StyleComesBack;
    assert "B" in FnNames(Spoken);
  }

  lemma {:induction false} ScriptShaped(m: Renaming, r: Renaming)
    ensures AllShaped(AtStart, Script, false)
    ensures HasHeader(Script, "script info") && HasHeader(Script, "events")
    ensures AllNamesBack(AtStart, Script, false, m, r) ==> ComesBack(m, r, "B")
  {
    HeaderFacts();
    AtEvents();
    ScriptIs();
    hide *;
    var at1 := Advance(AtStart, Script[0]);
    ThreeLines(AtStart, Script[0], Script[1], Spoken, m, r);
    HeaderShaped(AtStart, Script[0]);
    HeaderShaped(at1, Script[1]);
    SpokenShaped(Advance(at1, Script[1]), m, r);
    HeaderAt(Script, 0, "script info");
    HeaderAt(Script, 1, "events");
  }

  lemma ScriptIs()
    ensures Script == ["[Script Info]", "[Events]", Spoken] && |Script| == 3
    ensures Script[0] == "[Script Info]" && Script[1] == "[Events]"
  {
  }

  lemma HeaderAt(lines: seq<string>, i: nat, h: string)
    requires i < |lines| && Header(lines[i]) == Some(h)
    ensures HasHeader(lines, h)
  {
    hide Header;
  }

  lemma {:induction false} HalfJobGood()
    ensures GoodJobs(ScriptText(), HalfJob, OneComment, [Uninspected])
    ensures Known(OneComment, [Uninspected]) == map["n" := "A"]
  {
    TextFacts();
    JobFacts();
    BlockFacts();
    CommentFacts();
    ScriptShaped(map[], map[]);
    hide Lines, GoodJob, Embedded, BaseText, GoodBlocks, HasHeader, AllShaped, IsComments, CommentMap, ScriptText, EndsWithNewline, BlocksOf;
  }

  lemma HalfJobExact()
    ensures ExactTable(Compose(BothNames, map["n" := "A"]), false)
    ensures !ComesBack(BothNames, map["n" := "A"], "B")
  {
    NamesFacts();
    hide LookupName;
    UnrecordedIsLost("B", BothNames, map["n" := "A"]);
  }

  /**
    One font embedded, another renamed and not embedded: the strip job does not give the script
    back.
  */
  lemma {:induction false} RenamedNotEmbedded()
    ensures GoodJobs(ScriptText(), HalfJob, OneComment, [Uninspected])
    ensures Strip(Subset(ScriptText(), HalfJob, OneComment), [Uninspected])
            != Expected(ScriptText(), HalfJob, OneComment, [Uninspected])
  {
    TextFacts();
    HalfJobGood();
    HalfJobExact();
    hide *;
    HalfJobIs();
    ScriptShaped(BothNames, map["n" := "A"]);
    StripUndoesSubsetExactly(ScriptText(), HalfJob, OneComment, [Uninspected]);
  }

  lemma HalfJobIs()
    ensures HalfJob.names == BothNames && HalfJob.drawSubset == false
  {
  }
}
