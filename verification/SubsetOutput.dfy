/**
  The text the subset pass writes, seen by the code that reads it afterwards: its lines, its
  mapping comments and its fonts. The readers run over every line, so each kind of line the pass
  writes is shown to be either one they look for, read as it was printed, or one that leaves
  their state alone.
*/
module SubsetOutput {
  import opened Text
  import opened FontNames
  import opened FontsSection
  import opened Document
  import opened LineFacts
  import opened RoundTrip
  import opened Markers

  predicate HasHeader(lines: seq<string>, h: string) {
    exists i :: 0 <= i < |lines| && Header(lines[i]) == Some(h)
  }

  lemma HasHeaderTail(lines: seq<string>, h: string)
    requires lines != []
    ensures HasHeader(lines, h) <==> Header(lines[0]) == Some(h) || HasHeader(lines[1..], h)
  {
    hide Header;
    if HasHeader(lines, h) {
      var i :| 0 <= i < |lines| && Header(lines[i]) == Some(h);
      assert i > 0 ==> lines[1..][i - 1] == lines[i];
    }
    if HasHeader(lines[1..], h) {
      var i :| 0 <= i < |lines[1..]| && Header(lines[1..][i]) == Some(h);
      assert lines[i + 1] == lines[1..][i];
    }
  }

  // An environment whose inserted lines are clean and of the expected kinds.
  predicate GoodEnv(env: SubsetEnv, blocks: seq<Block>) {
    && CleanNames(env.names) && GoodBlocks(blocks) && env.fontLines == SectionLines(blocks)
    && (forall i :: 0 <= i < |env.comments| ==>
          Header(env.comments[i]) == None && CleanLine(env.comments[i]) && env.comments[i] != "")
  }

  // What one line becomes when nothing is inserted around it.
  function Ordinary(st: Pass, line: string, m: Renaming): string {
    if InStyles(st.section) then StyleStep(st, line, m).0
    else if st.section == "events" then RewriteFnTags(line, m)
    else line
  }

  lemma OrdinaryKind(st: Pass, line: string, m: Renaming)
    requires CleanNames(m) && Header(line) == None && !IsComment(line)
    ensures Header(Ordinary(st, line, m)) == None && !IsComment(Ordinary(st, line, m))
    ensures line != "" ==> Ordinary(st, line, m) != ""
  {
    StyleStepKeepsKind(st, line, m);
    RewriteNoHeader(line, m);
    RewriteNoComment(line, m);
    RewriteKeepsFirst(line, m);
    RewriteStyleShape(line, st.format, m);
    StyleStartNotEmpty(RewriteStyleLine(line, st.format, m));
    hide Header, IsComment, RewriteFnTags, RewriteStyleLine, StartsAs, Contains, Trim, StripPrefixCi;
  }

  lemma OrdinaryClean(st: Pass, line: string, m: Renaming)
    requires CleanNames(m) && CleanLine(line)
    ensures CleanLine(Ordinary(st, line, m))
  {
    RewriteCleanLine(line, m);
    RewriteStyleCleanLine(line, st.format, m);
    hide RewriteFnTags, RewriteStyleLine, CleanLine, Contains, Trim, StripPrefixCi;
  }

  lemma StyleStartNotEmpty(line: string)
    ensures StartsAs(line, "Style:") ==> line != ""
  {
    if line == "" {
      TrimOfTrimmed("");
    }
  }

  // The three ways one line of an unmarked script is written.
  lemma SubsetLineCases(st: Pass, line: string, env: SubsetEnv)
    requires !st.skipping && Unmarked(line)
    ensures var (out, next) := SubsetLine(st, line, env);
            && !next.skipping
            && (Header(line) == None ==> out == [Ordinary(st, line, env.names)])
            && (Header(line) == None ==>
                  next.section == st.section && next.inserted == st.inserted && next.commented == st.commented)
            && (Header(line) != None ==>
                  var h := Header(line).value;
                  var insert := h == "events" && !st.inserted && env.fontLines != [];
                  var comment := h == "script info" && !st.commented;
                  && out == (if insert then env.fontLines else []) + [line] + (if comment then env.comments else [])
                  && next.section == h && next.inserted == (st.inserted || insert)
                  && next.commented == (st.commented || comment))
  {
    if Header(line) == None {
      StyleStepSection(st, line, env.names);
      hide Header, IsComment, StyleStep, RewriteFnTags, Contains;
    } else {
      hide Header, IsComment;
    }
  }

  lemma HeaderNotEmpty(line: string)
    requires Header(line) != None
    ensures line != "" && !IsComment(line)
  {
    var t := Trim(line);
    assert line != "" by {
      if line == "" {
        TrimOfTrimmed("");
      }
    }
    hide Trim;
    PrefixOf(t, CommentPrefix);
    if |t| >= 14 {
      assert Lower(t[..14])[0] == LowerChar('[') == '[';
      assert Lower(CommentPrefix)[0] == ';';
    }
  }

  // ----- Its lines -----

  lemma CleanLinesAppend(a: seq<string>, b: seq<string>)
    requires CleanLines(a) && CleanLines(b)
    ensures CleanLines(a + b)
  {
  }

  lemma SubsetLineClean(st: Pass, line: string, env: SubsetEnv, blocks: seq<Block>)
    requires !st.skipping && Unmarked(line) && GoodEnv(env, blocks) && CleanLine(line)
    ensures var out := SubsetLine(st, line, env).0;
            && CleanLines(out) && out != []
            && (line != "" ==> out[|out| - 1] != "")
  {
    SubsetLineCases(st, line, env);
    SectionSkipped(blocks);
    OrdinaryClean(st, line, env.names);
    if Header(line) == None {
      OrdinaryKind(st, line, env.names);
    } else {
      HeaderNotEmpty(line);
    }
    hide SubsetLine, Header, IsComment, Ordinary, CleanLine, SectionLines, GoodBlocks, SkippedWhole;
  }

  lemma {:induction false} SubsetClean(st: Pass, lines: seq<string>, env: SubsetEnv, blocks: seq<Block>)
    requires !st.skipping && AllUnmarked(lines) && GoodEnv(env, blocks) && CleanLines(lines)
    ensures var out := SubsetLines(st, lines, env).0;
            && CleanLines(out) && (lines != [] ==> out != [])
            && (lines != [] && lines[|lines| - 1] != "" ==> out[|out| - 1] != "")
            && (st.inserted || env.fontLines == [] || !HasHeader(lines, "events")
                || SubsetLines(st, lines, env).1.inserted)
            && (st.inserted ==> SubsetLines(st, lines, env).1.inserted)
    decreases |lines|
  {
    hide Header, IsComment, CleanLine, GoodEnv, SubsetLine;
    if lines != [] {
      var line, tail := lines[0], lines[1..];
      assert Unmarked(line) && CleanLine(line);
      SubsetLineCases(st, line, env);
      SubsetLineClean(st, line, env, blocks);
      var (out, next) := SubsetLine(st, line, env);
      HasHeaderTail(lines, "events");
      hide HasHeader, Unmarked;
      SubsetClean(next, tail, env, blocks);
      var rest := SubsetLines(next, tail, env).0;
      CleanLinesAppend(out, rest);
      if tail == [] {
        assert out + rest == out;
      } else {
        assert (out + rest)[|out + rest| - 1] == rest[|rest| - 1];
        assert lines[|lines| - 1] == tail[|tail| - 1];
      }
    }
  }

  // ----- Its comments -----

  lemma {:induction false} CommentMapAppend(found: Renaming, a: seq<string>, b: seq<string>)
    ensures CommentMap(found, a + b) == CommentMap(CommentMap(found, a), b)
    decreases |a|
  {
    hide AddComment;
    if a == [] {
      assert a + b == b;
    } else {
      assert (a + b)[0] == a[0] && (a + b)[1..] == a[1..] + b;
      CommentMapAppend(AddComment(found, a[0]), a[1..], b);
    }
  }

  lemma {:induction false} CommentMapNothing(found: Renaming, lines: seq<string>)
    requires forall i :: 0 <= i < |lines| ==> !IsComment(lines[i])
    ensures CommentMap(found, lines) == found
    decreases |lines|
  {
    if lines != [] {
      NoCommentIsNotRestored(lines[0], found);
      assert AddComment(found, lines[0]) == found;
      hide AddComment, IsComment;
      CommentMapNothing(found, lines[1..]);
    }
  }

  lemma {:induction false} CommentMapOne(found: Renaming, line: string)
    requires !IsComment(line)
    ensures CommentMap(found, [line]) == found
  {
    hide IsComment, AddComment;
    CommentMapNothing(found, [line]);
  }

  lemma {:induction false} SubsetLineComments(found: Renaming, st: Pass, line: string, env: SubsetEnv, blocks: seq<Block>)
    requires !st.skipping && Unmarked(line) && GoodEnv(env, blocks)
    ensures CommentMap(found, SubsetLine(st, line, env).0) ==
            if Header(line) == Some("script info") && !st.commented then CommentMap(found, env.comments) else found
  {
    SubsetLineCases(st, line, env);
    SectionNoComment(blocks);
    if Header(line) == None {
      OrdinaryKind(st, line, env.names);
      CommentMapOne(found, Ordinary(st, line, env.names));
    } else {
      HeaderNotEmpty(line);
      hide SubsetLine, Header, IsComment, Ordinary, SectionLines;
      var h := Header(line).value;
      var insert := h == "events" && !st.inserted && env.fontLines != [];
      var before := if insert then env.fontLines else [];
      CommentMapNothing(found, before);
      CommentMapOne(found, line);
      CommentMapAppend(found, before, [line]);
      var after := if h == "script info" && !st.commented then env.comments else [];
      CommentMapAppend(found, before + [line], after);
    }
  }

  /** The comment reader finds the comments of the pass, once, and nothing else. */
  lemma {:induction false} SubsetComments(found: Renaming, st: Pass, lines: seq<string>, env: SubsetEnv, blocks: seq<Block>)
    requires !st.skipping && AllUnmarked(lines) && GoodEnv(env, blocks)
    ensures CommentMap(found, SubsetLines(st, lines, env).0) ==
            if HasHeader(lines, "script info") && !st.commented then CommentMap(found, env.comments) else found
    decreases |lines|
  {
    hide Header, IsComment, GoodEnv, SubsetLine, AddComment;
    if lines != [] {
      var line, tail := lines[0], lines[1..];
      assert Unmarked(line);
      SubsetLineCases(st, line, env);
      SubsetLineComments(found, st, line, env, blocks);
      HasHeaderTail(lines, "script info");
      var (out, next) := SubsetLine(st, line, env);
      hide HasHeader, Unmarked, CommentMap;
      SubsetComments(CommentMap(found, out), next, tail, env, blocks);
      CommentMapAppend(found, out, SubsetLines(next, tail, env).0);
    }
  }

  // ----- Its fonts -----

  // The font reader outside any font.
  predicate Idle(r: Reader) {
    r.name == None && r.data == "" && r.section != "fonts"
  }

  lemma ReadOutside(r: Reader, line: string)
    requires Idle(r) && Header(line) != Some("fonts")
    ensures Idle(ReadLine(r, line)) && ReadLine(r, line).fonts == r.fonts
  {
    hide Trim, StripPrefixCi, UuCodec.Decode;
  }

  lemma ReadHeader(r: Reader, line: string)
    requires r.name == None && r.data == "" && Header(line) != None && Header(line) != Some("fonts")
    ensures Idle(ReadLine(r, line)) && ReadLine(r, line).fonts == r.fonts
  {
    hide Trim, StripPrefixCi, UuCodec.Decode;
  }

  lemma {:induction false} ReadComments(r: Reader, lines: seq<string>)
    requires Idle(r) && forall i :: 0 <= i < |lines| ==> Header(lines[i]) == None
    ensures Idle(ReadLines(r, lines)) && ReadLines(r, lines).fonts == r.fonts
    decreases |lines|
  {
    hide Header, ReadLine, Idle;
    if lines != [] {
      ReadOutside(r, lines[0]);
      ReadComments(ReadLine(r, lines[0]), lines[1..]);
    }
  }

  lemma {:induction false} SubsetLineFonts(r: Reader, st: Pass, line: string, env: SubsetEnv, blocks: seq<Block>)
    requires !st.skipping && Unmarked(line) && GoodEnv(env, blocks) && Idle(r)
    ensures var r' := ReadLines(r, SubsetLine(st, line, env).0);
            && Idle(r')
            && r'.fonts == r.fonts + (if Header(line) == Some("events") && !st.inserted then blocks else [])
  {
    SubsetLineCases(st, line, env);
    assert r.fonts + [] == r.fonts;
    if Header(line) == None {
      OrdinaryKind(st, line, env.names);
      hide Ordinary, SubsetLine;
      ReadOutside(r, Ordinary(st, line, env.names));
      ReadOne(r, Ordinary(st, line, env.names));
    } else {
      var h := Header(line).value;
      if env.fontLines != [] {
        ReadSection(r, blocks) by { hide Idle; assert r.name == None && r.data == "" by { IdleFacts(r); } }
      }
      hide SubsetLine, Header, ReadLines, ReadLine;
      var insert := h == "events" && !st.inserted && env.fontLines != [];
      var before := if insert then env.fontLines else [];
      var after := if h == "script info" && !st.commented then env.comments else [];
      assert ReadLines(r, []) == r by { ReadNothing(r); }
      var r1 := ReadLines(r, before);
      ReadHeader(r1, line);
      ReadOne(r1, line);
      var r2 := ReadLine(r1, line);
      ReadLinesAppend(r, before, [line]);
      ReadComments(r2, after);
      ReadLinesAppend(r, before + [line], after);
      hide SectionLines, Idle;
      assert env.fontLines == [] ==> blocks == [] by { NoLinesNoBlocks(blocks); }
    }
  }

  lemma IdleFacts(r: Reader)
    requires Idle(r)
    ensures r.name == None && r.data == ""
  {
  }

  lemma NoLinesNoBlocks(blocks: seq<Block>)
    ensures SectionLines(blocks) == [] ==> blocks == []
  {
  }

  lemma {:induction false} ReadNothing(r: Reader)
    ensures ReadLines(r, []) == r
  {
  }

  /** The font reader finds exactly the fonts the pass embedded. */
  lemma {:induction false} SubsetFonts(r: Reader, st: Pass, lines: seq<string>, env: SubsetEnv, blocks: seq<Block>)
    requires !st.skipping && AllUnmarked(lines) && GoodEnv(env, blocks) && Idle(r)
    ensures var r' := ReadLines(r, SubsetLines(st, lines, env).0);
            && Idle(r')
            && r'.fonts == r.fonts + (if HasHeader(lines, "events") && !st.inserted then blocks else [])
    decreases |lines|
  {
    assert r.fonts + [] == r.fonts;
    if lines == [] {
      ReadNothing(r);
    } else {
      hide Header, IsComment, GoodEnv, SubsetLine, ReadLine, Idle;
      var line, tail := lines[0], lines[1..];
      assert Unmarked(line);
      SubsetLineCases(st, line, env);
      SubsetLineFonts(r, st, line, env, blocks);
      HasHeaderTail(lines, "events");
      var (out, next) := SubsetLine(st, line, env);
      var r1 := ReadLines(r, out);
      assert env.fontLines == [] ==> blocks == [] by { EnvNoBlocks(env, blocks); }
      hide HasHeader, Unmarked;
      SubsetFonts(r1, next, tail, env, blocks);
      ReadLinesAppend(r, out, SubsetLines(next, tail, env).0);
      assert r.fonts + blocks + [] == r.fonts + blocks;
    }
  }

  lemma EnvNoBlocks(env: SubsetEnv, blocks: seq<Block>)
    requires GoodEnv(env, blocks)
    ensures env.fontLines == [] ==> blocks == []
  {
  }
}
