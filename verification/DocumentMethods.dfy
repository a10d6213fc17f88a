/**
  The whole-script passes as the loops the source runs, each proved to compute the function the
  theorems are about.
*/
module DocumentMethods {
  import opened Text
  import opened FontNames
  import opened FontsSection
  import opened Drawings
  import opened Document

  lemma SectionOrNothing(blocks: seq<Block>)
    ensures SectionLines(blocks) == [] <==> blocks == []
  {
  }

  // The variables the two font passes update line by line, in one place because they share them.
  class PassWriter {
    const newline: string
    var out: seq<string>
    var section: string
    var skipping: bool
    var inserted: bool
    var format: seq<string>
    var commented: bool
    // The lines written, with every font section as its own lines.
    ghost var flat: seq<string>

    constructor (newline: string)
      ensures this.newline == newline && flat == [] && State() == FirstPass && Valid()
    {
      this.newline := newline;
      out, flat, section, skipping, inserted, format, commented := [], [], "", false, false, [], false;
      new;
      assert Join([], newline) == "";
    }

    function State(): Pass
      reads this
    {
      Pass(section, skipping, inserted, format, commented)
    }

    ghost predicate Valid()
      reads this
    {
      SameText(out, flat, newline)
    }

    method Write(line: string)
      requires Valid()
      modifies this`out, this`flat
      ensures Valid() && flat == old(flat) + [line]
    {
      PushLine(out, flat, line, newline);
      hide SameText;
      out := out + [line];
      flat := flat + [line];
    }

    method WriteSection(blocks: seq<Block>, fontSection: string)
      requires Valid() && blocks != [] && fontSection == Join(SectionLines(blocks), newline)
      modifies this`out, this`flat
      ensures Valid() && flat == old(flat) + SectionLines(blocks)
    {
      PushSection(out, flat, SectionLines(blocks), newline);
      hide SameText;
      out := out + [fontSection];
      flat := flat + SectionLines(blocks);
    }

    method WriteAll(lines: seq<string>)
      requires Valid()
      modifies this`out, this`flat
      ensures Valid() && flat == old(flat) + lines
    {
      for i := 0 to |lines|
        invariant Valid() && flat == old(flat) + lines[..i]
      {
        hide SameText;
        Write(lines[i]);
        assert lines[..i + 1] == lines[..i] + [lines[i]];
      }
      assert lines[..|lines|] == lines;
    }

    // A section header; `blocks` is what the pass inserts, printed as `fontSection`.
    method EnterSection(h: string, line: string, blocks: seq<Block>, fontSection: string, comments: seq<string>)
      requires Valid() && (blocks != [] ==> fontSection == Join(SectionLines(blocks), newline))
      modifies this
      ensures Valid()
      ensures (flat, State()) == (old(flat) + Enter(old(State()), h, line, SectionLines(blocks), comments).0,
                                  Enter(old(State()), h, line, SectionLines(blocks), comments).1)
    {
      hide SameText;
      skipping := false;
      if h == "fonts" {
        skipping := true;
        section := h;
        assert flat + [] == flat;
        return;
      }
      ghost var before: seq<string> := [];
      ghost var after: seq<string> := [];
      assert flat + before == flat;
      if h == "events" && !inserted && blocks != [] {
        before := SectionLines(blocks);
        WriteSection(blocks, fontSection);
        inserted := true;
      }
      section := h;
      Write(line);
      assert flat + after == flat;
      if section == "script info" && !commented {
        after := comments;
        WriteAll(comments);
        commented := true;
      }
      AssocSeq(old(flat), before, [line]);
      AssocSeq(old(flat), before + [line], after);
      SectionOrNothing(blocks);
      hide SectionLines;
    }

    method WriteStyle(line: string, names: Renaming)
      requires Valid()
      modifies this
      ensures Valid()
      ensures (flat, State()) == (old(flat) + [StyleStep(old(State()), line, names).0], StyleStep(old(State()), line, names).1)
    {
      hide SameText, Trim, StripPrefixCi, RewriteStyleLine, FormatFields;
      var trimmed := Trim(line);
      var rest := StripPrefixCi(trimmed, "Format:");
      if rest.Some? {
        format := FormatFields(rest.value);
        Write(line);
      } else if StripPrefixCi(trimmed, "Style:").Some? {
        Write(RewriteStyleLine(line, format, names));
      } else {
        Write(line);
      }
    }

    // One line of `rewrite_with_embedded_fonts`.
    method Subset(line: string, blocks: seq<Block>, fontSection: string, comments: seq<string>, names: Renaming)
      requires Valid() && (blocks != [] ==> fontSection == Join(SectionLines(blocks), newline))
      modifies this
      ensures Valid()
      ensures var env := SubsetEnv(SectionLines(blocks), comments, names);
              (flat, State()) == (old(flat) + SubsetLine(old(State()), line, env).0, SubsetLine(old(State()), line, env).1)
    {
      hide SameText, Trim, StripPrefixCi, SectionHeader, Lower, Enter, StyleStep, RewriteFnTags, Contains;
      var header := SectionHeader(Trim(line));
      if header.Some? {
        EnterSection(Lower(header.value), line, blocks, fontSection, comments);
      } else if skipping || (section == "script info" && IsComment(line)) {
        assert flat + [] == flat;
      } else if InStyles(section) {
        WriteStyle(line, names);
      } else if section == "events" {
        Write(RewriteFnTags(line, names));
      } else {
        Write(line);
      }
    }

    // One line of `rewrite_strip_embedded`.
    method Strip(line: string, kept: seq<Block>, keptSection: string, names: Renaming, drawings: DrawMap)
      requires Valid() && (kept != [] ==> keptSection == Join(SectionLines(kept), newline))
      modifies this
      ensures Valid()
      ensures var env := StripEnv(SectionLines(kept), names, drawings);
              (flat, State()) == (old(flat) + StripLine(old(State()), line, env).0, StripLine(old(State()), line, env).1)
    {
      hide SameText, Trim, SectionHeader, Lower, Enter, StyleStep, RewriteFnTags, Contains, IsRestoredComment, Restore;
      var header := SectionHeader(Trim(line));
      if header.Some? {
        EnterSection(Lower(header.value), line, kept, keptSection, []);
      } else if skipping || IsRestoredComment(line, names) {
        assert flat + [] == flat;
      } else if InStyles(section) {
        WriteStyle(line, names);
      } else if section == "events" {
        var restored := RewriteFnTags(line, names);
        Write(Restore(restored, drawings));
      } else {
        Write(line);
      }
    }

    method Finished(blocks: seq<Block>, fontSection: string, final: bool) returns (result: string)
      requires Valid() && (blocks != [] ==> fontSection == Join(SectionLines(blocks), newline))
      modifies this
      ensures result == Render(Finish(old(flat), old(State()), SectionLines(blocks)), newline, final)
    {
      if !inserted && blocks != [] {
        WriteSection(blocks, fontSection);
      } else {
        assert flat + [] == flat;
      }
      result := Join(out, newline);
      if final {
        result := result + newline;
      } else {
        assert result + "" == result;
      }
    }
  }

  // What a pass yields once it has written `done` and still has `rest` to read.
  function SubsetAfter(done: seq<string>, st: Pass, rest: seq<string>, env: SubsetEnv): (seq<string>, Pass) {
    var (out, end) := SubsetLines(st, rest, env);
    (done + out, end)
  }

  lemma SubsetAfterLine(done: seq<string>, st: Pass, rest: seq<string>, env: SubsetEnv)
    requires rest != []
    ensures SubsetAfter(done, st, rest, env) ==
            SubsetAfter(done + SubsetLine(st, rest[0], env).0, SubsetLine(st, rest[0], env).1, rest[1..], env)
  {
    hide SubsetLine;
    var (out, st') := SubsetLine(st, rest[0], env);
    AssocSeq(done, out, SubsetLines(st', rest[1..], env).0);
  }

  lemma {:induction false} SubsetAfterEnds(st: Pass, lines: seq<string>, env: SubsetEnv, done: seq<string>)
    ensures SubsetAfter([], st, lines, env) == SubsetLines(st, lines, env)
    ensures SubsetAfter(done, st, [], env) == (done, st)
  {
    assert [] + SubsetLines(st, lines, env).0 == SubsetLines(st, lines, env).0;
    assert done + [] == done;
  }

  /** `rewrite_with_embedded_fonts`, with the comments decided beforehand by `MappingComments`. */
  method RewriteWithEmbeddedFonts(text: string, newline: string, names: Renaming, blocks: seq<Block>, comments: seq<string>)
    returns (result: string)
    ensures result == SubsetText(text, newline, SubsetEnv(SectionLines(blocks), comments, names))
  {
    ghost var env := SubsetEnv(SectionLines(blocks), comments, names);
    var fontSection := BuildFontsSection(blocks, newline);
    var lines := Lines(text);
    var w := new PassWriter(newline);
    SubsetAfterEnds(FirstPass, lines, env, []);
    hide Lines, SubsetLines, SubsetAfter, Join, SubsetLine, SameText, SectionLines;
    var i := 0;
    while i < |lines|
      invariant 0 <= i <= |lines|
      invariant w.Valid() && SubsetAfter(w.flat, w.State(), lines[i..], env) == SubsetLines(FirstPass, lines, env)
    {
      assert lines[i..][0] == lines[i] && lines[i..][1..] == lines[i + 1..];
      SubsetAfterLine(w.flat, w.State(), lines[i..], env);
      w.Subset(lines[i], blocks, fontSection, comments, names);
      i := i + 1;
    }
    assert lines[i..] == [];
    SubsetAfterEnds(w.State(), lines, env, w.flat);
    result := w.Finished(blocks, fontSection, EndsWithNewline(text));
  }

  function StripAfter(done: seq<string>, st: Pass, rest: seq<string>, env: StripEnv): (seq<string>, Pass) {
    var (out, end) := StripLines(st, rest, env);
    (done + out, end)
  }

  lemma StripAfterLine(done: seq<string>, st: Pass, rest: seq<string>, env: StripEnv)
    requires rest != []
    ensures StripAfter(done, st, rest, env) ==
            StripAfter(done + StripLine(st, rest[0], env).0, StripLine(st, rest[0], env).1, rest[1..], env)
  {
    hide StripLine;
    var (out, st') := StripLine(st, rest[0], env);
    AssocSeq(done, out, StripLines(st', rest[1..], env).0);
  }

  lemma {:induction false} StripAfterEnds(st: Pass, lines: seq<string>, env: StripEnv, done: seq<string>)
    ensures StripAfter([], st, lines, env) == StripLines(st, lines, env)
    ensures StripAfter(done, st, [], env) == (done, st)
  {
    assert [] + StripLines(st, lines, env).0 == StripLines(st, lines, env).0;
    assert done + [] == done;
  }

  /** `rewrite_strip_embedded` */
  method RewriteStripEmbedded(text: string, newline: string, names: Renaming, kept: seq<Block>, drawings: DrawMap)
    returns (result: string)
    ensures result == StripText(text, newline, StripEnv(SectionLines(kept), names, drawings))
  {
    ghost var env := StripEnv(SectionLines(kept), names, drawings);
    var keptSection := BuildFontsSection(kept, newline);
    var lines := Lines(text);
    var w := new PassWriter(newline);
    StripAfterEnds(FirstPass, lines, env, []);
    hide Lines, StripLines, StripAfter, Join, StripLine, SameText, SectionLines;
    var i := 0;
    while i < |lines|
      invariant 0 <= i <= |lines|
      invariant w.Valid() && StripAfter(w.flat, w.State(), lines[i..], env) == StripLines(FirstPass, lines, env)
    {
      assert lines[i..][0] == lines[i] && lines[i..][1..] == lines[i + 1..];
      StripAfterLine(w.flat, w.State(), lines[i..], env);
      w.Strip(lines[i], kept, keptSection, names, drawings);
      i := i + 1;
    }
    assert lines[i..] == [];
    StripAfterEnds(w.State(), lines, env, w.flat);
    result := w.Finished(kept, keptSection, EndsWithNewline(text));
  }

  // ----- Comments -----

  /** The comments `rewrite_with_embedded_fonts` writes; the fallback walks the table in any order. */
  method MappingComments(fonts: seq<Font>, names: Renaming) returns (comments: seq<string>)
    ensures IsComments(comments, fonts, names)
  {
    comments := [];
    var seen: set<string> := {};
    for i := 0 to |fonts|
      invariant comments + FontComments(fonts[i..], seen) == FontComments(fonts, {})
    {
      assert fonts[i..][1..] == fonts[i + 1..];
      hide LookupName, Comment;
      var f := fonts[i];
      if f.original != f.embedded {
        var key := LookupName(f.embedded);
        if key !in seen {
          seen := seen + {key};
          comments := comments + [Comment(f.embedded, f.original)];
        }
      }
    }
    assert comments + [] == comments;
    if comments == [] {
      ghost var order: seq<string>;
      comments, order := FallbackComments(names);
      assert IsFallback(comments, order, names);
    }
  }

  method FallbackComments(names: Renaming) returns (comments: seq<string>, ghost order: seq<string>)
    ensures IsFallback(comments, order, names)
  {
    hide Comment, Lower;
    comments, order := [], [];
    var left := names.Keys;
    while left != {}
      invariant left <= names.Keys && |comments| == |order|
      invariant forall k :: k in order <==> k in names.Keys - left && k != Lower(names[k])
      invariant forall i, j :: 0 <= i < j < |order| ==> order[i] != order[j]
      invariant forall i :: 0 <= i < |order| ==> order[i] in names && comments[i] == Comment(names[order[i]], order[i])
      decreases |left|
    {
      var k :| k in left;
      left := left - {k};
      if k != Lower(names[k]) {
        assert k !in order;
        comments, order := comments + [Comment(names[k], k)], order + [k];
      }
    }
  }

  /** `parse_font_subset_comments` */
  method ParseFontSubsetComments(text: string) returns (found: Renaming)
    ensures found == CommentMap(map[], Lines(text))
  {
    found := map[];
    var lines := Lines(text);
    hide Lines, Trim, StripPrefixCi, LookupName, FindDash;
    var i := 0;
    while i < |lines|
      invariant 0 <= i <= |lines|
      invariant CommentMap(found, lines[i..]) == CommentMap(map[], lines)
    {
      assert lines[i..][1..] == lines[i + 1..];
      var line := lines[i];
      i := i + 1;
      var rest := StripPrefixCi(Trim(line), CommentPrefix);
      if rest.None? {
        continue;
      }
      var t := Trim(rest.value);
      var k := FindDash(t);
      if k < |t| {
        var subset, original := Trim(t[..k]), Trim(t[k + 3..]);
        if subset != "" && original != "" {
          found := found[LookupName(subset) := original];
        }
      }
    }
  }

  // ----- Drawings -----

  function DrawAfter(done: seq<string>, st: DrawPass, rest: seq<string>): (seq<string>, DrawPass) {
    var (out, end) := DrawLines(st, rest);
    (done + out, end)
  }

  lemma DrawAfterLine(done: seq<string>, st: DrawPass, rest: seq<string>)
    requires rest != []
    ensures DrawAfter(done, st, rest) == DrawAfter(done + [DrawLine(st, rest[0]).0], DrawLine(st, rest[0]).1, rest[1..])
  {
    hide DrawLine;
    var (out, st') := DrawLine(st, rest[0]);
    AssocSeq(done, [out], DrawLines(st', rest[1..]).0);
  }

  lemma {:induction false} DrawAfterEnds(st: DrawPass, lines: seq<string>, done: seq<string>)
    ensures DrawAfter([], st, lines) == DrawLines(st, lines)
    ensures DrawAfter(done, st, []) == (done, st)
  {
    assert [] + DrawLines(st, lines).0 == DrawLines(st, lines).0;
    assert done + [] == done;
  }

  // One line of the pass, with the shared dictionary updated in place.
  method DrawOne(section: string, format: seq<string>, book: DrawBook, line: string)
    returns (out: string, section': string, format': seq<string>)
    modifies book
    ensures var (expected, next) := DrawLine(DrawPass(section, format, old(book.Contents())), line);
            out == expected && DrawPass(section', format', book.Contents()) == next
  {
    hide Trim, SectionHeader, Lower, StripPrefixCi, FormatFields, DialogueFields, Rewrite, DialogueLine;
    out, section', format' := line, section, format;
    var header := SectionHeader(Trim(line));
    if header.Some? {
      section' := Lower(header.value);
      return;
    }
    if section != "events" {
      return;
    }
    var rest := StripPrefixCi(Trim(line), "Format:");
    if rest.Some? {
      format' := FormatFields(rest.value);
      return;
    }
    var dialogue := DialogueFields(line, format);
    if dialogue.Some? {
      var (lead, fields) := dialogue.value;
      DialogueHasText(line, format);
      var k := Position(format, "text");
      var text := book.RewriteText(fields[k]);
      out := DialogueLine(lead, fields[k := text]);
    }
  }

  lemma {:induction false} DialogueHasText(line: string, format: seq<string>)
    requires DialogueFields(line, format).Some?
    ensures Position(format, "text") < |DialogueFields(line, format).value.1|
  {
  }

  /** `rewrite_drawings_as_font` */
  method RewriteDrawingsAsFont(text: string, newline: string) returns (result: string, entries: seq<Entry>)
    ensures result == DrawText(text, newline).0 && entries == DrawText(text, newline).1.entries
  {
    var lines := Lines(text);
    var out: seq<string> := [];
    var section: string, format: seq<string> := "", [];
    var book := new DrawBook();
    DrawAfterEnds(FirstDrawPass, lines, []);
    hide Lines, DrawLines, DrawAfter, DrawLine, Render;
    var i := 0;
    while i < |lines|
      invariant 0 <= i <= |lines|
      invariant DrawAfter(out, DrawPass(section, format, book.Contents()), lines[i..]) == DrawLines(FirstDrawPass, lines)
    {
      assert lines[i..][0] == lines[i] && lines[i..][1..] == lines[i + 1..];
      DrawAfterLine(out, DrawPass(section, format, book.Contents()), lines[i..]);
      var line: string;
      line, section, format := DrawOne(section, format, book, lines[i]);
      out := out + [line];
      i := i + 1;
    }
    assert lines[i..] == [];
    DrawAfterEnds(DrawPass(section, format, book.Contents()), lines, out);
    result := Render(out, newline, EndsWithNewline(text));
    entries := book.entries;
  }
}
