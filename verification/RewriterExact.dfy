/**
  The condition of the main theorem is exact: a script comes back only if its names do. Texts that
  are written from equally many lines are equal only if the lines are; a Style line shows its font
  field, and an event line shows its names even after the drawings are restored, so each line gives
  its own names back.
*/
module RewriterExact {
  import opened Text
  import opened FontNames
  import opened FontsSection
  import opened Drawings
  import opened Document
  import opened LineFacts
  import opened RoundTrip
  import opened Markers
  import opened SubsetOutput
  import opened DrawingLines
  import opened Jobs
  import opened RewriterTheorem
  import opened NamesShow

  // ----- Tokens of the drawing pass -----

  lemma {:induction false} UnmarkedTokens(t: string)
    requires !HasMarker(t)
    ensures TokenText(t)
    decreases |t|
  {
    if t != "" {
      NoToken(t);
      UnmarkedTokens(t[1..]);
    }
  }

  lemma {:induction false} PlainTokens(a: string, b: string)
    requires '{' !in a && TokenText(b)
    ensures TokenText(a + b)
    decreases |a|
  {
    if a == "" {
      assert a + b == b;
    } else {
      assert (a + b)[1..] == a[1..] + b && (a + b)[0] == a[0];
      PlainTokens(a[1..], b);
    }
  }

  lemma {:induction false} BlockTokens(a: string, b: string)
    requires a != "" && a[|a| - 1] == '}' && !HasMarker(a) && TokenText(b)
    ensures TokenText(a + b)
    decreases |a|
  {
    NoTokenInBlock(a, b);
    var t := a[1..];
    assert (a + b)[1..] == t + b && a == [a[0]] + t;
    MarkerInSuffix([a[0]], t);
    hide HasMarker, TokenLen;
    if t == "" {
      assert t + b == b;
    } else {
      BlockTokens(t, b);
    }
  }

  lemma {:induction false} TokenTokens(ch: string, z: string)
    requires |ch| == 1 && ch[0] != '{' && ch[0] != '\\' && TokenText(z)
    ensures TokenText(Token + ch + z)
  {
    var t, n := Token + ch + z, |TokenBlock|;
    TokenBlockFacts();
    hide HasMarker;
    assert t == TokenBlock + ("}" + ch + z);
    FindCharIs(TokenBlock, '}', "}" + ch + z);
    assert t[1..n] == TokenBlock[1..] && t[n + 1] == ch[0];
    assert TokenLen(t) == n + 2;
    assert t[n + 2..] == z && t[..n + 1] == Token;
  }

  lemma RoundShape(p: Piece, book: Book) returns (ch: string)
    requires GoodChars(book)
    ensures Round(p, book).0 == if p.drawing == "" then p.kept else p.kept + Token + ch
    ensures p.drawing != "" ==> |ch| == 1 && ch[0] != '{' && ch[0] != '\\'
  {
    if p.drawing == "" {
      ch := "";
    } else {
      RegisterGoodChar(book, p.drawing, p.level);
      ch := Register(book, p.drawing, p.level).1;
      hide Register, GoodChars;
    }
  }

  lemma Regrouped(a: string, b: string, c: string, d: string)
    ensures a + b + c + d == a + (b + c + d)
  {
  }

  lemma {:induction false} PieceTokens(p: Piece, book: Book, z: string)
    requires !HasMarker(p.kept) && TokenText(z) && GoodChars(book)
    requires p.drawing == "" ==> p.kept != "" && p.kept[|p.kept| - 1] == '}'
    requires p.drawing != "" ==> '{' !in p.kept
    ensures TokenText(Round(p, book).0 + z)
  {
    var ch := RoundShape(p, book);
    hide *;
    if p.drawing == "" {
      BlockTokens(p.kept, z);
    } else {
      TokenTokens(ch, z);
      PlainTokens(p.kept, Token + ch + z);
      Regrouped(p.kept, Token, ch, z);
    }
  }

  lemma RoundGoodChars(p: Piece, book: Book)
    requires GoodChars(book)
    ensures GoodChars(Round(p, book).1)
  {
    if p.drawing != "" {
      RegisterGoodChar(book, p.drawing, p.level);
    }
  }

  lemma {:induction false} PieceIsOne(s: string, p: Piece, q: string, book: Book)
    requires s != "" && p == NextPiece(s) && Valid(book) && !HasMarker(s + q)
    requires !(p.drawing == "" && p.rest == "")
    ensures !HasMarker(p.kept) && !HasMarker(p.rest + q) && Valid(Round(p, book).1)
    ensures p.drawing == "" ==> p.kept != "" && p.kept[|p.kept| - 1] == '}'
    ensures p.drawing != "" ==> '{' !in p.kept
  {
    RestoreRewriteMarkers(s, p, q);
    RoundFacts(s, book);
    hide *;
  }

  // The rewritten text with what follows it on its line.
  lemma {:induction false} RewriteTokens(s: string, q: string, book: Book)
    requires Valid(book) && GoodChars(book) && !HasMarker(s + q)
    ensures TokenText(Rewrite(s, book).0 + q)
    decreases |s|
  {
    hide *;
    if s == "" || (NextPiece(s).drawing == "" && NextPiece(s).rest == "") {
      RewriteLast(s, book);
      UnmarkedTokens(s + q);
    } else {
      var p := NextPiece(s);
      Drawings.RewriteStep(s, book);
      PieceIsOne(s, p, q, book);
      RoundGoodChars(p, book);
      var (out, book1) := Round(p, book);
      RewriteTokens(p.rest, q, book1);
      var rest := Rewrite(p.rest, book1).0;
      PieceTokens(p, book, rest + q);
      Assoc(out, rest, q);
    }
  }

  // An event line after the drawing pass.
  lemma {:induction false} DrawnTokens(at: Cursor, line: string, drawSubset: bool)
    requires ShapedLine(at, line, drawSubset) && Header(line) == None && at.section == at.draw.section == "events"
    requires Valid(at.draw.book) && GoodChars(at.draw.book)
    ensures TokenText(Drawn(at, line, drawSubset))
  {
    hide HasMarker, TokenText, Rewrite, Valid, GoodChars, Trim, StripPrefixCi, Header;
    if Drawn(at, line, drawSubset) == line {
      UnmarkedTokens(line);
    } else {
      DialogueFacts(line, at.draw.format);
      DialogueNoMarker(line, at.draw.format);
      var (lead, fields) := DialogueFields(line, at.draw.format).value;
      hide DialogueFields;
      var k := Position(at.draw.format, "text");
      var text := Rewrite(fields[k], at.draw.book).0;
      var front, back := lead + "Dialogue: " + Before(fields, k), DrawingLines.After(fields, k);
      TailNoMarker(fields, k);
      RewriteTokens(fields[k], back, at.draw.book);
      assert '{' !in front by {
        BeforeChars(fields, k, '{');
        assert '{' !in lead;
      }
      hide Before, DrawingLines.After;
      PlainTokens(front, text + back);
      LineAround(lead, fields, k, text);
    }
  }

  // ----- One line -----

  // Tables for which the condition is exact: a new name ends where a tag argument ends and, when
  // drawings are replaced, no name has a brace or looks like the drawing font.
  predicate ExactTable(c: Renaming, drawSubset: bool) {
    PlainNames(c) && (drawSubset ==> OrdinaryTable(c))
  }

  lemma StyleBackOnly(line: string, format: seq<string>, m: Renaming, r: Renaming)
    requires var c := Compose(m, r);
             RewriteStyleLine(line, format, c) == if StyleRenamed(line, format, c) then NormalStyleLine(line, format) else line
    ensures StyleComesBack(line, format, m, r)
  {
    hide StyleFields, LookupName, Compose;
    if StyleFields(line, format).Some? {
      var (lead, fields) := StyleFields(line, format).value;
      var k := FontIndex(format);
      var c := Compose(m, r);
      if k < |fields| {
        ComesBackComposed(m, r, fields[k]);
        if LookupName(fields[k]) in c {
          SameField(lead, fields, k, c[LookupName(fields[k])]);
        }
      }
    }
  }

  // Style lines with different font fields differ.
  lemma {:induction false} SameField(lead: string, fields: seq<string>, k: nat, x: string)
    requires k < |fields| && StyleLine(lead, fields[k := x]) == StyleLine(lead, fields)
    ensures x == fields[k]
  {
    JoinAround(fields, k, x);
    JoinAround(fields, k, fields[k]);
    assert fields[k := fields[k]] == fields;
    var front, a, b := lead + "Style: ", Before(fields, k), DrawingLines.After(fields, k);
    hide Join, Before, DrawingLines.After;
    CancelFront(front, a + x + b, a + fields[k] + b);
    Assoc(a, x, b);
    Assoc(a, fields[k], b);
    CancelFront(a, x + b, fields[k] + b);
    assert |x| == |fields[k]|;
    assert (x + b)[..|x|] == x && (fields[k] + b)[..|x|] == fields[k];
  }

  lemma {:induction false} SpelledComesBack(s: string, m: Renaming, r: Renaming)
    requires SpelledBy(s, Compose(m, r))
    ensures NamesComeBack(s, m, r)
    decreases |s|
  {
    if s != "" {
      if IsFnTag(s) {
        FnParts(s);
        ComesBackComposed(m, r, FnArg(s));
        SameArg(FnArg(s), Renamed(Compose(m, r), FnArg(s)), s);
      }
      hide ComesBack, Compose, Renamed;
      SpelledComesBack(s[MatchLen(s)..], m, r);
    }
  }

  lemma SameArg(a: string, b: string, s: string)
    requires IsFnTag(s) && a == FnArg(s)
    ensures FN + b == s[..MatchLen(s)] ==> a == b
  {
    assert s[..MatchLen(s)] == FN + a by { FnParts(s); }
    assert (FN + b)[3..] == b && (FN + a)[3..] == a;
  }

  lemma {:induction false} RestoreWithout(s: string)
    ensures Restore(s, map[]) == s
    decreases |s|
  {
    if s != "" {
      var n := TokenLen(s);
      RestoreWithout(s[if n == 0 then 1 else n..]);
    }
  }

  lemma {:induction false} EventBackOnly(at: Cursor, line: string, drawSubset: bool, m: Renaming, r: Renaming, dm: DrawMap)
    requires ShapedLine(at, line, drawSubset) && ExactTable(Compose(m, r), drawSubset)
    requires Header(line) == None && at.section == at.draw.section == "events"
    requires Valid(at.draw.book) && GoodChars(at.draw.book)
    requires if drawSubset then Covers(dm, DrawLine(at.draw, line).1.book.entries) else dm == map[]
    requires Restore(RewriteFnTags(Drawn(at, line, drawSubset), Compose(m, r)), dm) == NormalEvent(at, line, drawSubset)
    ensures NamesComeBack(Drawn(at, line, drawSubset), m, r)
  {
    var base, c := Drawn(at, line, drawSubset), Compose(m, r);
    RestoreEvent(at, line, drawSubset, dm);
    DrawnTokens(at, line, drawSubset);
    hide *;
    if drawSubset {
      RestoredUnchanged(base, c, dm) by { hide *; ExactIsOrdinary(c); }
    } else {
      RestoreWithout(base);
      RestoreWithout(RewriteFnTags(base, c));
    }
    UnchangedIsSpelled(base, c) by { hide *; ExactIsOrdinary(c); }
    SpelledComesBack(base, m, r);
  }

  lemma ExactIsOrdinary(c: Renaming)
    ensures ExactTable(c, true) ==> OrdinaryTable(c)
    ensures forall drawSubset :: ExactTable(c, drawSubset) ==> PlainNames(c)
  {
    hide OrdinaryTable, PlainNames;
  }

  lemma LineBackOnly(at: Cursor, st: Pass, line: string, drawSubset: bool, m: Renaming, r: Renaming, env: StripEnv)
    requires ShapedLine(at, line, drawSubset) && env.names == Compose(m, r) && ExactTable(env.names, drawSubset)
    requires Follows(st, at, env) && Valid(at.draw.book) && GoodChars(at.draw.book)
    requires if drawSubset then Covers(env.drawings, DrawLine(at.draw, line).1.book.entries) else env.drawings == map[]
    requires Treated(st, Drawn(at, line, drawSubset), env) == NormalLine(at, line, drawSubset, Compose(m, r))
    ensures NamesBack(at, line, drawSubset, m, r)
  {
    DrawLineKind(at.draw, line);
    StylesAreNotEvents(at.section);
    if Header(line) == None {
      if InStyles(at.section) {
        if StripPrefixCi(Trim(line), "Format:").None? && StripPrefixCi(Trim(line), "Style:").Some? {
          StyleBackOnly(line, at.styleFormat, m, r);
        }
        hide Trim, StripPrefixCi, StyleComesBack, StyleRenamed, RewriteStyleLine, Contains, DrawLine, Header, Compose;
      } else if at.section == "events" {
        assert NormalLine(at, line, drawSubset, Compose(m, r)) == NormalEvent(at, line, drawSubset);
        hide Trim, StripPrefixCi, RewriteFnTags, Restore, Contains, DrawLine, HasMarker, Compose, NormalDialogue, Valid, Covers;
        hide GoodChars, ExactTable, ShapedLine, NamesComeBack;
        EventBackOnly(at, line, drawSubset, m, r, env.drawings);
      }
    }
  }

  // ----- All lines -----

  lemma SameHeads(pre: seq<string>, x: string, a: seq<string>, y: string, b: seq<string>)
    requires pre + [x] + a == pre + [y] + b
    ensures x == y && a == b
  {
    assert (pre + [x] + a)[|pre|] == x && (pre + [y] + b)[|pre|] == y;
    assert (pre + [x] + a)[|pre| + 1..] == a && (pre + [y] + b)[|pre| + 1..] == b;
  }

  lemma {:induction false} LinesBackOnly(at: Cursor, st: Pass, lines: seq<string>, drawSubset: bool, m: Renaming, r: Renaming, env: StripEnv)
    requires AllShaped(at, lines, drawSubset) && env.names == Compose(m, r) && ExactTable(env.names, drawSubset)
    requires Follows(st, at, env) && Drawing(at, lines, drawSubset, env.drawings) && (drawSubset || env.drawings == map[])
    requires StripLines(st, AllDrawn(at, lines, drawSubset), env).0
             == ExpectedLines(at, lines, drawSubset, Compose(m, r), env.fontLines)
    ensures AllNamesBack(at, lines, drawSubset, m, r)
    decreases |lines|
  {
    if lines != [] {
      var line, tail := lines[0], lines[1..];
      DrawingStep(at, lines, drawSubset, env.drawings);
      assert GoodChars(at.draw.book);
      ScriptStep(at, st, lines, drawSubset, env);
      var next := StripLine(st, Drawn(at, line, drawSubset), env).1;
      hide ShapedLine, NamesBack, Advance, Drawn, AllDrawn, NormalLine, Treated, Compose, Follows, Drawing, StripLine, Header;
      hide ExactTable, Valid, GoodChars, Covers, StripLines, Unmarked;
      SameHeads(if Header(line) == Some("events") && !at.begun then env.fontLines else [],
                Treated(st, Drawn(at, line, drawSubset), env), StripLines(next, AllDrawn(Advance(at, line), tail, drawSubset), env).0,
                NormalLine(at, line, drawSubset, Compose(m, r)),
                ExpectedLines(Advance(at, line), tail, drawSubset, Compose(m, r), env.fontLines));
      LineBackOnly(at, st, line, drawSubset, m, r, env);
      LinesBackOnly(Advance(at, line), next, tail, drawSubset, m, r, env);
    }
  }

  lemma {:induction false} LinesCount(at: Cursor, st: Pass, lines: seq<string>, drawSubset: bool, env: StripEnv)
    requires AllUnmarked(lines) && Follows(st, at, env)
    ensures |StripLines(st, AllDrawn(at, lines, drawSubset), env).0|
            == |ExpectedLines(at, lines, drawSubset, env.names, env.fontLines)|
    decreases |lines|
  {
    if lines != [] {
      var line, tail := lines[0], lines[1..];
      assert Unmarked(line);
      ScriptStep(at, st, lines, drawSubset, env);
      var next := StripLine(st, Drawn(at, line, drawSubset), env).1;
      hide Advance, Drawn, AllDrawn, NormalLine, Treated, Follows, StripLine, Header, Unmarked, StripLines;
      LinesCount(Advance(at, line), next, tail, drawSubset, env);
    } else {
      assert AllDrawn(at, lines, drawSubset) == [];
    }
  }

  // ----- From text to lines -----

  predicate OneLiners(lines: seq<string>) {
    forall i :: 0 <= i < |lines| ==> '\n' !in lines[i]
  }

  function Newlines(s: string): nat {
    if s == "" then 0 else (if s[0] == '\n' then 1 else 0) + Newlines(s[1..])
  }

  lemma {:induction false} NewlinesAppend(a: string, b: string)
    ensures Newlines(a + b) == Newlines(a) + Newlines(b)
    decreases |a|
  {
    if a == "" {
      assert a + b == b;
    } else {
      assert (a + b)[1..] == a[1..] + b;
      NewlinesAppend(a[1..], b);
    }
  }

  lemma {:induction false} NewlinesNone(s: string)
    ensures Newlines(s) == 0 <==> '\n' !in s
    decreases |s|
  {
    if s != "" {
      NewlinesNone(s[1..]);
      assert s == [s[0]] + s[1..];
    }
  }

  lemma {:induction false} NewlineIsOne(nl: string)
    requires IsNewline(nl)
    ensures Newlines(nl) == 1 && nl != "" && nl[|nl| - 1] == '\n' && '\n' !in nl[..|nl| - 1]
  {
    assert "\r\n"[1..] == "\n" && "\n"[1..] == "";
    assert Newlines("\n") == 1 && Newlines("\r\n") == 1;
  }

  // A joined text has a line end between any two lines, and those within the lines.
  lemma {:induction false} NewlinesJoined(lines: seq<string>, nl: string)
    requires IsNewline(nl) && lines != []
    ensures Newlines(Join(lines, nl)) >= |lines| - 1
    ensures Newlines(Join(lines, nl)) == |lines| - 1 <==> OneLiners(lines)
    decreases |lines|
  {
    NewlinesNone(lines[0]);
    if |lines| > 1 {
      var first, rest := lines[0], lines[1..];
      NewlineIsOne(nl);
      NewlinesAppend(first, nl);
      NewlinesAppend(first + nl, Join(rest, nl));
      NewlinesJoined(rest, nl);
      assert OneLiners(lines) <==> '\n' !in first && OneLiners(rest) by {
        assert lines == [first] + rest;
      }
    }
  }

  // Lines are found again in their joined text.
  lemma {:induction false} FirstLineSame(a: string, x: string, b: string, y: string, nl: string)
    requires IsNewline(nl) && '\n' !in a && '\n' !in b && a + nl + x == b + nl + y
    ensures a == b && x == y
  {
    NewlineIsOne(nl);
    FirstNewline(a, x, nl);
    FirstNewline(b, y, nl);
    assert |a| == |b|;
    var s := a + nl + x;
    assert s[..|a|] == a && (b + nl + y)[..|b|] == b;
    assert s[|a| + |nl|..] == x && (b + nl + y)[|b| + |nl|..] == y;
  }

  lemma {:induction false} FirstNewline(a: string, x: string, nl: string)
    requires nl != "" && nl[|nl| - 1] == '\n' && '\n' !in nl[..|nl| - 1] && '\n' !in a
    ensures FindChar(a + nl + x, '\n') == |a| + |nl| - 1
  {
    var front, back := a + nl[..|nl| - 1], "\n" + x;
    assert a + nl + x == front + back;
    FindCharIs(front, '\n', back);
  }

  lemma {:induction false} JoinedSame(a: seq<string>, b: seq<string>, nl: string)
    requires IsNewline(nl) && OneLiners(a) && OneLiners(b) && |a| == |b| && Join(a, nl) == Join(b, nl)
    ensures a == b
    decreases |a|
  {
    if |a| == 1 {
      assert a == [a[0]] && b == [b[0]];
    } else if a != [] {
      FirstLineSame(a[0], Join(a[1..], nl), b[0], Join(b[1..], nl), nl);
      JoinedSame(a[1..], b[1..], nl);
      assert a == [a[0]] + a[1..] && b == [b[0]] + b[1..];
    }
  }

  // Texts written from equally many lines are equal only if the lines are.
  lemma {:induction false} RenderedSame(a: seq<string>, b: seq<string>, nl: string, final: bool)
    requires IsNewline(nl) && OneLiners(b) && |a| == |b| && Render(a, nl, final) == Render(b, nl, final)
    ensures a == b
  {
    var x, y := Join(a, nl), Join(b, nl);
    assert x == y by {
      var n := if final then |nl| else 0;
      assert Render(a, nl, final)[..|Render(a, nl, final)| - n] == x;
      assert Render(b, nl, final)[..|Render(b, nl, final)| - n] == y;
    }
    if a != [] {
      NewlinesJoined(a, nl);
      NewlinesJoined(b, nl);
      hide Join, Render, OneLiners;
      JoinedSame(a, b, nl);
    }
  }

  // ----- The expected lines are single lines -----

  lemma NormalOneLine(at: Cursor, line: string, drawSubset: bool, c: Renaming)
    requires '\n' !in line
    ensures '\n' !in NormalLine(at, line, drawSubset, c)
  {
    StyleOneLine(line, at.styleFormat);
    DialogueOneLine(line, at.draw.format);
    hide NormalStyleLine, NormalDialogue, StyleRenamed, Header, Contains, Trim, StripPrefixCi;
  }

  lemma StyleOneLine(line: string, format: seq<string>)
    requires '\n' !in line
    ensures '\n' !in NormalStyleLine(line, format)
  {
    if StyleFields(line, format).Some? {
      FieldsOfCleanLine(line, "Style:", StyleFieldCount(format));
      var (lead, fields) := StyleFields(line, format).value;
      hide StyleFields, StripPrefixCi, TrimStart;
      JoinNoNewline(fields);
    }
  }

  lemma DialogueOneLine(line: string, format: seq<string>)
    requires '\n' !in line
    ensures '\n' !in NormalDialogue(line, format)
  {
    if DialogueFields(line, format).Some? {
      FieldsOfCleanLine(line, "Dialogue:", |format|);
      var (lead, fields) := DialogueFields(line, format).value;
      hide DialogueFields, StripPrefixCi, TrimStart;
      JoinNoNewline(fields);
    }
  }

  lemma {:induction false} ExpectedOneLiners(at: Cursor, lines: seq<string>, drawSubset: bool, c: Renaming, kept: seq<string>)
    requires CleanLines(lines) && OneLiners(kept)
    ensures OneLiners(ExpectedLines(at, lines, drawSubset, c, kept))
    decreases |lines|
  {
    if lines != [] {
      NormalOneLine(at, lines[0], drawSubset, c);
      hide NormalLine, Advance, Header;
      ExpectedOneLiners(Advance(at, lines[0]), lines[1..], drawSubset, c, kept);
    }
  }

  lemma {:induction false} KeptGood(blocks: seq<Block>, inspections: seq<Inspection>, comments: Renaming)
    requires GoodBlocks(blocks)
    ensures GoodBlocks(Kept(blocks, inspections, comments))
    decreases |blocks|
  {
    hide Removable, GoodBlock;
    if blocks != [] {
      KeptGood(blocks[1..], if inspections == [] then [] else inspections[1..], comments);
    }
  }

  lemma KeptOneLiners(text: string, job: Job, comments: seq<string>, inspections: seq<Inspection>)
    requires GoodJobs(text, job, comments, inspections)
    ensures OneLiners(KeptLines(text, job, comments, inspections))
  {
    hide GoodJob, HasHeader, Lines, AllShaped, IsComments, DrawingsIn, BaseText, Embedded;
    KeptGood(BlocksOf(Embedded(text, job)), inspections, CommentMap(map[], comments));
    hide Kept, GoodBlocks, CommentMap;
    SectionSkipped(Kept(BlocksOf(Embedded(text, job)), inspections, CommentMap(map[], comments)));
    hide SectionLines, SkippedWhole;
  }

  // ----- The theorem -----

  /**
    Strip undoes subset exactly when every font name that the written script uses comes back
    through the two renamings.
  */
  lemma {:induction false} StripUndoesSubsetExactly(text: string, job: Job, comments: seq<string>, inspections: seq<Inspection>)
    requires GoodJobs(text, job, comments, inspections)
    requires ExactTable(Compose(job.names, Known(comments, inspections)), job.drawSubset)
    ensures Strip(Subset(text, job, comments), inspections) == Expected(text, job, comments, inspections)
            <==> AllNamesBack(AtStart, Lines(text), job.drawSubset, job.names, Known(comments, inspections))
  {
    hide *;
    var r := Known(comments, inspections);
    if AllNamesBack(AtStart, Lines(text), job.drawSubset, job.names, r) {
      StripUndoesSubset(text, job, comments, inspections);
    } else if Strip(Subset(text, job, comments), inspections) == Expected(text, job, comments, inspections) {
      var lines, env := Lines(text), DirectEnv(text, job, comments, inspections);
      StripWritten(text, job, comments, inspections);
      StartOfLines(text, job, comments, inspections);
      ExpectedIs(text, job, comments, inspections);
      InputFacts(text, job, comments, inspections);
      ShapedUnmarked(AtStart, lines, job.drawSubset);
      LinesCount(AtStart, FirstPass, lines, job.drawSubset, env);
      LinesAreClean(text);
      KeptOneLiners(text, job, comments, inspections);
      EnvIs(text, job, comments, inspections);
      ExpectedOneLiners(AtStart, lines, job.drawSubset, env.names, env.fontLines);
      RenderedSame(StripLines(FirstPass, AllDrawn(AtStart, lines, job.drawSubset), env).0,
                   ExpectedLines(AtStart, lines, job.drawSubset, env.names, env.fontLines),
                   DetectNewline(text), EndsWithNewline(text));
      LinesBackOnly(AtStart, FirstPass, lines, job.drawSubset, job.names, r, env);
    }
  }

  lemma EnvIs(text: string, job: Job, comments: seq<string>, inspections: seq<Inspection>)
    ensures var env := DirectEnv(text, job, comments, inspections);
            && env.fontLines == KeptLines(text, job, comments, inspections)
            && (job.drawSubset || env.drawings == map[])
  {
    hide KeptLines, Compose, Known, DrawText, DetectNewline;
  }
}
