/**
  What the two jobs write, from text to text and told by position.
*/
module JobOutput {
  import opened Text
  import opened FontsSection
  import opened Drawings
  import opened Document
  import opened DrawingLines
  import opened Jobs
  import opened PassFacts

  // The last line is not an empty one without a newline behind it, as after a lone carriage return.
  predicate Whole(text: string) {
    EndsWithNewline(text) || Lines(text) == [] || Lines(text)[|Lines(text)| - 1] != ""
  }

  // The script with its drawings replaced, where the job replaces them; joining the lines again
  // loses a last one that is empty and has no newline.
  function Base(text: string, drawSubset: bool): seq<string> {
    var lines := Lines(text);
    if !drawSubset then lines
    else
      var drawn := seq(|lines|, k requires 0 <= k < |lines| => DrawnAt(lines, k));
      if Whole(text) then drawn else drawn[..|lines| - 1]
  }

  predicate Final(text: string, drawSubset: bool) {
    EndsWithNewline(text) || (drawSubset && !Whole(text) && |Lines(text)| > 1)
  }

  // The fonts the job embeds: its own, and last the font with the drawings when there are any.
  function Fonts(lines: seq<string>, job: Job): seq<Font> {
    if job.drawSubset && BookAt(lines, |lines|).entries != [] then
      job.fonts + [Font("ASSDrawSubset", "ASSDrawSubset", Normal, job.drawData)]
    else job.fonts
  }

  lemma {:induction false} DrawnIsClean(st: DrawPass, lines: seq<string>)
    requires GoodChars(st.book) && CleanLines(lines)
    ensures var out := DrawLines(st, lines).0;
            |out| == |lines| && CleanLines(out) && forall i :: 0 <= i < |lines| ==> lines[i] != "" ==> out[i] != ""
    decreases |lines|
  {
    hide GoodChars, CleanLine, DrawLine;
    if lines != [] {
      assert CleanLine(lines[0]);
      DrawLineClean(st, lines[0]);
      DrawLineKind(st, lines[0]);
      DrawnIsClean(DrawLine(st, lines[0]).1, lines[1..]);
    }
  }

  lemma DrawnEmpty(lines: seq<string>, k: nat)
    requires k < |lines| && lines[k] == ""
    ensures DrawnAt(lines, k) == ""
  {
    hide ColumnsAt, SectionAt, BookAt, Rewrite;
  }

  // Joining loses a last empty line.
  lemma {:induction false} LastIsLost(lines: seq<string>, nl: string)
    requires CleanLines(lines) && IsNewline(nl) && lines != [] && lines[|lines| - 1] == ""
    ensures Lines(Render(lines, nl, false)) == lines[..|lines| - 1]
    ensures EndsWithNewline(Render(lines, nl, false)) <==> |lines| > 1
  {
    LinesRender(lines, nl, false);
    hide Lines, CleanLines;
    if |lines| == 1 {
      assert lines == [""] && Render(lines, nl, false) == "";
    } else {
      assert lines == lines[..|lines| - 1] + [""];
      hide Join;
      JoinConcat(lines[..|lines| - 1], [""], nl);
      JoinOne(nl);
    }
  }

  lemma {:induction false} JoinOne(nl: string)
    ensures Join([""], nl) == ""
  {
  }

  // What the drawing pass leaves, as lines.
  lemma {:induction false} DrawnIs(text: string)
    ensures var (out, end) := DrawLines(FirstDrawPass, Lines(text));
            && CleanLines(out) && |out| == |Lines(text)| && end.book == BookAt(Lines(text), |Lines(text)|)
            && (forall k :: 0 <= k < |out| ==> out[k] == DrawnAt(Lines(text), k))
            && (out != [] ==> (out[|out| - 1] == "" <==> Lines(text)[|out| - 1] == ""))
  {
    var lines := Lines(text);
    LinesAreClean(text);
    NothingKnown();
    hide Lines, DrawLines, GoodChars, DrawnAt, CleanLine;
    DrawnIsClean(FirstDrawPass, lines);
    assert lines[0..] == lines && DrawPassAt(lines, 0) == FirstDrawPass;
    DrawByPosition(lines, 0);
    if lines != [] && lines[|lines| - 1] == "" {
      DrawnEmpty(lines, |lines| - 1);
    }
  }

  lemma {:induction false} BaseTextIs(text: string, job: Job)
    requires job.drawSubset
    ensures var (out, end) := DrawLines(FirstDrawPass, Lines(text));
            && BaseText(text, job).0 == Render(out, DetectNewline(text), EndsWithNewline(text))
            && (end.book == BookAt(Lines(text), |Lines(text)|) ==> Embedded(text, job) == Fonts(Lines(text), job))
  {
    hide Lines, DrawLines, BookAt, Render;
    assert job.fonts + [] == job.fonts;
  }

  lemma {:induction false} NothingDrawn(text: string, job: Job)
    requires !job.drawSubset
    ensures BaseText(text, job).0 == text && Embedded(text, job) == Fonts(Lines(text), job)
    ensures Base(text, false) == Lines(text) && Final(text, false) == EndsWithNewline(text)
  {
    assert job.fonts + [] == job.fonts;
  }

  lemma {:induction false} BaseOf(text: string, out: seq<string>)
    requires |out| == |Lines(text)| && forall k :: 0 <= k < |out| ==> out[k] == DrawnAt(Lines(text), k)
    ensures Base(text, true) == if Whole(text) then out else out[..|out| - 1]
  {
    hide Lines, DrawnAt;
    assert out == seq(|Lines(text)|, k requires 0 <= k < |Lines(text)| => DrawnAt(Lines(text), k));
  }

  lemma {:induction false} WholeIs(text: string, out: seq<string>)
    requires |out| == |Lines(text)| && (out != [] ==> (out[|out| - 1] == "" <==> Lines(text)[|out| - 1] == ""))
    ensures Whole(text) <==> EndsWithNewline(text) || out == [] || out[|out| - 1] != ""
    ensures Final(text, true) <==> EndsWithNewline(text) || (!Whole(text) && |out| > 1)
    ensures out == [] ==> !EndsWithNewline(text)
    ensures IsNewline(DetectNewline(text))
  {
    EmptyText(text);
    hide Lines;
  }

  // What the renaming starts from, as lines.
  lemma {:induction false} BaseIs(text: string, job: Job)
    ensures Lines(BaseText(text, job).0) == Base(text, job.drawSubset)
    ensures EndsWithNewline(BaseText(text, job).0) == Final(text, job.drawSubset)
    ensures Embedded(text, job) == Fonts(Lines(text), job)
  {
    hide *;
    if job.drawSubset {
      DrawnIs(text);
      var out := DrawLines(FirstDrawPass, Lines(text)).0;
      BaseTextIs(text, job);
      BaseOf(text, out);
      WholeIs(text, out);
      ReadAgain(out, DetectNewline(text), EndsWithNewline(text));
    } else {
      NothingDrawn(text, job);
    }
  }

  lemma {:induction false} ReadAgain(out: seq<string>, nl: string, final: bool)
    requires CleanLines(out) && IsNewline(nl) && (out == [] ==> !final)
    ensures var whole := final || out == [] || out[|out| - 1] != "";
            && Lines(Render(out, nl, final)) == (if whole then out else out[..|out| - 1])
            && EndsWithNewline(Render(out, nl, final)) == (final || (!whole && |out| > 1))
  {
    hide Lines, CleanLine, CleanLines;
    if out == [] {
      EmptyText("");
    } else if final || out[|out| - 1] != "" {
      LinesRender(out, nl, final);
      RenderEnding(out, nl, final);
    } else {
      LastIsLost(out, nl);
    }
  }

  lemma NothingKnown()
    ensures GoodChars(EmptyBook)
  {
  }

  lemma {:induction false} EmptyText(text: string)
    ensures Lines(text) == [] ==> text == "" && !EndsWithNewline(text)
    ensures Render([], DetectNewline(text), false) == "" && Lines("") == []
  {
  }

  /**
    With a font to embed, the subset job writes the script with its drawings replaced, every line as the subset pass treats
    it at its position, with the section of the fonts it embeds and the comments it was given.
  */
  lemma {:induction false} SubsetJobWrites(text: string, job: Job, comments: seq<string>)
    requires Fonts(Lines(text), job) != []
    ensures var base := Base(text, job.drawSubset);
            var env := SubsetEnv(SectionLines(BlocksOf(Fonts(Lines(text), job))), comments, job.names);
            Subset(text, job, comments)
            == Render(SubsetFrom(base, 0, env) + if Met(base, |base|, "events") then [] else env.fontLines,
                      DetectNewline(text), Final(text, job.drawSubset))
  {
    var base := Base(text, job.drawSubset);
    var env := SubsetEnv(SectionLines(BlocksOf(Fonts(Lines(text), job))), comments, job.names);
    BaseIs(text, job);
    SubsetByPosition(base, env);
    hide SubsetResult, SubsetFrom, Met, BaseText, Embedded, Base, Fonts, BlocksOf, SectionLines, Lines, Render, Final;
  }

  /**
    The strip job writes every line as the strip pass treats it at its position, with the section of
    the fonts that stay.
  */
  lemma {:induction false} StripJobWrites(text: string, inspections: seq<Inspection>)
    ensures var lines := Lines(text);
            var comments := CommentMap(map[], lines);
            var env := StripEnv(SectionLines(Kept(FontsIn(lines), inspections, comments)), Restoring(comments, inspections),
                                EntryMap(DrawingsIn(inspections)));
            Strip(text, inspections)
            == Render(StripFrom(lines, 0, env) + if Met(lines, |lines|, "events") then [] else env.fontLines,
                      DetectNewline(text), EndsWithNewline(text))
  {
    var lines := Lines(text);
    var comments := CommentMap(map[], lines);
    StripByPosition(lines, StripEnv(SectionLines(Kept(FontsIn(lines), inspections, comments)), Restoring(comments, inspections),
                                    EntryMap(DrawingsIn(inspections))));
    hide StripResult, StripFrom, Met, Kept, Restoring, CommentMap, FontsIn, SectionLines, Lines, Render, DrawingsIn, EntryMap;
  }
}
