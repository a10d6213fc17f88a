/**
  The main theorem of the rewriter: subsetting a script and stripping the result gives the script
  back, with its Style and Dialogue lines printed from their own fields and its line ends unified.
  The conditions go line by line, from the reader's state in front of the line, and so does the
  expected text.
*/
module RewriterTheorem {
  import opened Text
  import opened FontNames
  import opened FontsSection
  import opened Drawings
  import opened Document
  import opened LineFacts
  import opened RoundTrip
  import opened Markers
  import opened SubsetOutput
  import opened DrawingLines
  import opened Jobs

  // ----- The conditions -----

  // A name that is the same after both renamings.
  predicate ComesBack(m: Renaming, r: Renaming, name: string) {
    Renamed(r, Renamed(m, name)) == name
  }

  // Every name in the tags of an event line, or in the font field of a Style line, comes back.
  predicate NamesComeBack(s: string, m: Renaming, r: Renaming)
    decreases |s|
  {
    s == "" ||
    ((IsFnTag(s) ==> ComesBack(m, r, FnArg(s))) && NamesComeBack(s[MatchLen(s)..], m, r))
  }

  predicate StyleComesBack(line: string, format: seq<string>, m: Renaming, r: Renaming) {
    StyleFields(line, format).Some? ==>
      var fields := StyleFields(line, format).value.1;
      FontIndex(format) < |fields| ==> ComesBack(m, r, fields[FontIndex(format)])
  }

  // The reader's state while the conditions and the expected lines are worked out line by line;
  // `begun` says that an `[Events]` header was met.
  datatype Cursor = Cursor(section: string, styleFormat: seq<string>, draw: DrawPass, begun: bool)

  const AtStart := Cursor("", [], FirstDrawPass, false)

  function Advance(at: Cursor, line: string): Cursor {
    var h := Header(line);
    var draw := DrawLine(at.draw, line).1;
    if h.Some? then Cursor(h.value, at.styleFormat, draw, at.begun || h.value == "events")
    else
      var format := StripPrefixCi(Trim(line), "Format:");
      if InStyles(at.section) && format.Some? then Cursor(at.section, FormatFields(format.value), draw, at.begun)
      else Cursor(at.section, at.styleFormat, draw, at.begun)
  }

  // The line after the drawing pass.
  function Drawn(at: Cursor, line: string, drawSubset: bool): string {
    if drawSubset then DrawLine(at.draw, line).0 else line
  }

  function AllDrawn(at: Cursor, lines: seq<string>, drawSubset: bool): seq<string> {
    if drawSubset then DrawLines(at.draw, lines).0 else lines
  }

  // The line has no marker of its own, and a drawing's block is the first thing that opens a brace.
  predicate ShapedLine(at: Cursor, line: string, drawSubset: bool) {
    && Unmarked(line)
    && (Header(line) == None && at.section == "events" ==>
          !HasMarker(line) && (drawSubset ==> NoBraceBeforeText(line, at.draw.format)))
  }

  predicate AllShaped(at: Cursor, lines: seq<string>, drawSubset: bool)
    decreases |lines|
  {
    lines == [] || (ShapedLine(at, lines[0], drawSubset) && AllShaped(Advance(at, lines[0]), lines[1..], drawSubset))
  }

  // The names the line is written with come back.
  predicate NamesBack(at: Cursor, line: string, drawSubset: bool, m: Renaming, r: Renaming) {
    Header(line) == None ==>
      && (InStyles(at.section) && StripPrefixCi(Trim(line), "Format:").None? && StripPrefixCi(Trim(line), "Style:").Some? ==>
            StyleComesBack(line, at.styleFormat, m, r))
      && (at.section == "events" ==> NamesComeBack(Drawn(at, line, drawSubset), m, r))
  }

  predicate AllNamesBack(at: Cursor, lines: seq<string>, drawSubset: bool, m: Renaming, r: Renaming)
    decreases |lines|
  {
    lines == []
    || (NamesBack(at, lines[0], drawSubset, m, r) && AllNamesBack(Advance(at, lines[0]), lines[1..], drawSubset, m, r))
  }

  // ----- The expected text -----

  // A renamed Style line and a Dialogue line are printed from their fields; nothing else changes.
  function NormalLine(at: Cursor, line: string, drawSubset: bool, c: Renaming): string {
    if Header(line).Some? then line
    else if InStyles(at.section) then
      if StripPrefixCi(Trim(line), "Format:").None? && StripPrefixCi(Trim(line), "Style:").Some?
         && StyleRenamed(line, at.styleFormat, c)
      then NormalStyleLine(line, at.styleFormat) else line
    else if at.section == "events" && drawSubset && StripPrefixCi(Trim(line), "Format:").None?
    then NormalDialogue(line, at.draw.format)
    else line
  }

  function StyleRenamed(line: string, format: seq<string>, c: Renaming): bool {
    StyleFields(line, format).Some? &&
    var fields := StyleFields(line, format).value.1;
    FontIndex(format) < |fields| && LookupName(fields[FontIndex(format)]) in c
  }

  // The lines expected back: the fonts that stay stand in front of the first `[Events]` header.
  function ExpectedLine(at: Cursor, line: string, drawSubset: bool, c: Renaming, kept: seq<string>): seq<string> {
    (if Header(line) == Some("events") && !at.begun then kept else []) + [NormalLine(at, line, drawSubset, c)]
  }

  function ExpectedLines(at: Cursor, lines: seq<string>, drawSubset: bool, c: Renaming, kept: seq<string>): seq<string>
    decreases |lines|
  {
    if lines == [] then []
    else ExpectedLine(at, lines[0], drawSubset, c, kept) + ExpectedLines(Advance(at, lines[0]), lines[1..], drawSubset, c, kept)
  }

  // ----- One line -----

  lemma ComesBackComposed(m: Renaming, r: Renaming, name: string)
    ensures ComesBack(m, r, name) <==> Renamed(Compose(m, r), name) == name
  {
    ComposeRenames(m, r, name);
  }

  lemma {:induction false} NamesComeBackSpelled(s: string, m: Renaming, r: Renaming)
    requires NamesComeBack(s, m, r)
    ensures SpelledBy(s, Compose(m, r))
    decreases |s|
  {
    if s != "" {
      if IsFnTag(s) {
        FnParts(s);
        ComesBackComposed(m, r, FnArg(s));
      }
      hide ComesBack, Compose, Renamed;
      NamesComeBackSpelled(s[MatchLen(s)..], m, r);
    }
  }

  lemma StyleBack(line: string, format: seq<string>, m: Renaming, r: Renaming)
    requires StyleComesBack(line, format, m, r)
    ensures var c := Compose(m, r);
            RewriteStyleLine(line, format, c) == if StyleRenamed(line, format, c) then NormalStyleLine(line, format) else line
  {
    hide StyleFields, StyleLine, LookupName, Compose;
    if StyleFields(line, format).Some? {
      var fields := StyleFields(line, format).value.1;
      var k := FontIndex(format);
      if k < |fields| {
        ComesBackComposed(m, r, fields[k]);
        assert fields[k := fields[k]] == fields;
      }
    }
  }

  // What the strip pass writes for a line that is not skipped, font section aside.
  function Treated(st: Pass, line: string, env: StripEnv): string {
    if Header(line).Some? then line
    else if InStyles(st.section) then StyleStep(st, line, env.names).0
    else if st.section == "events" then Restore(RewriteFnTags(line, env.names), env.drawings)
    else line
  }

  // The strip pass stands where the cursor stands.
  predicate Follows(st: Pass, at: Cursor, env: StripEnv) {
    && !st.skipping && st.section == at.section == at.draw.section && st.format == at.styleFormat
    && st.inserted == (at.begun && env.fontLines != [])
  }

  lemma LineTreated(at: Cursor, st: Pass, line: string, drawSubset: bool, env: StripEnv)
    requires Unmarked(line) && Follows(st, at, env)
    ensures var base := Drawn(at, line, drawSubset);
            var (out, next) := StripLine(st, base, env);
            && out == (if Header(line) == Some("events") && !at.begun then env.fontLines else []) + [Treated(st, base, env)]
            && Follows(next, Advance(at, line), env)
  {
    DrawLineKind(at.draw, line);
    DrawLineSection(at.draw, line);
    StylesAreNotEvents(at.section);
    var base := Drawn(at, line, drawSubset);
    NoCommentIsNotRestored(base, env.names);
    hide Trim, RewriteFnTags, Restore, Contains, DrawLine, Header, RewriteStyleLine, IsComment, IsRestoredComment;
    if Header(line).Some? {
      hide StripPrefixCi;
    } else {
      FormatLineIsKept(at.draw, line);
      hide StripPrefixCi;
    }
  }

  // An event line comes back, with its fields printed again when drawings were looked for.
  lemma {:induction false} EventBack(at: Cursor, line: string, drawSubset: bool, m: Renaming, r: Renaming, dm: DrawMap)
    requires ShapedLine(at, line, drawSubset) && NamesBack(at, line, drawSubset, m, r)
    requires Header(line) == None && at.section == at.draw.section == "events" && Valid(at.draw.book)
    requires drawSubset ==> Covers(dm, DrawLine(at.draw, line).1.book.entries)
    ensures Restore(RewriteFnTags(Drawn(at, line, drawSubset), Compose(m, r)), dm) == NormalEvent(at, line, drawSubset)
  {
    var base := Drawn(at, line, drawSubset);
    NamesComeBackSpelled(base, m, r);
    RewriteUnchanged(base, Compose(m, r));
    RestoreEvent(at, line, drawSubset, dm);
  }

  function NormalEvent(at: Cursor, line: string, drawSubset: bool): string {
    if drawSubset && StripPrefixCi(Trim(line), "Format:").None? then NormalDialogue(line, at.draw.format) else line
  }

  lemma {:induction false} RestoreEvent(at: Cursor, line: string, drawSubset: bool, dm: DrawMap)
    requires ShapedLine(at, line, drawSubset)
    requires Header(line) == None && at.section == at.draw.section == "events" && Valid(at.draw.book)
    requires drawSubset ==> Covers(dm, DrawLine(at.draw, line).1.book.entries)
    ensures Restore(Drawn(at, line, drawSubset), dm) == NormalEvent(at, line, drawSubset)
  {
    FormatLineIsKept(at.draw, line);
    hide Trim, StripPrefixCi, Restore, DrawLine, Header, HasMarker, NormalDialogue;
    if drawSubset && StripPrefixCi(Trim(line), "Format:").None? {
      RestoreDialogue(line, at.draw, dm);
    } else {
      RestoreNothing(line, dm);
    }
  }

  // The expected line is what the strip pass with the composed renaming makes of the base line.
  lemma LineBack(at: Cursor, st: Pass, line: string, drawSubset: bool, m: Renaming, r: Renaming, env: StripEnv)
    requires ShapedLine(at, line, drawSubset) && NamesBack(at, line, drawSubset, m, r) && env.names == Compose(m, r)
    requires Follows(st, at, env) && Valid(at.draw.book)
    requires drawSubset ==> Covers(env.drawings, DrawLine(at.draw, line).1.book.entries)
    ensures Treated(st, Drawn(at, line, drawSubset), env) == NormalLine(at, line, drawSubset, Compose(m, r))
  {
    DrawLineKind(at.draw, line);
    StylesAreNotEvents(at.section);
    if Header(line) == None {
      if InStyles(at.section) {
        if StripPrefixCi(Trim(line), "Format:").None? && StripPrefixCi(Trim(line), "Style:").Some? {
          StyleBack(line, at.styleFormat, m, r);
        }
        hide Trim, StripPrefixCi, StyleComesBack, StyleRenamed, RewriteStyleLine, Contains, DrawLine, Header, Compose;
      } else if at.section == "events" {
        EventBack(at, line, drawSubset, m, r, env.drawings);
        hide Trim, StripPrefixCi, RewriteFnTags, Restore, Contains, DrawLine, Header, HasMarker, Compose, NormalDialogue;
      }
    }
  }

  lemma FormatLineIsKept(st: DrawPass, line: string)
    ensures StripPrefixCi(Trim(line), "Format:").Some? ==> DrawLine(st, line).0 == line
  {
    hide Trim, StripPrefixCi, Rewrite, Header, DialogueFields;
  }

  lemma DrawLineSection(st: DrawPass, line: string)
    ensures DrawLine(st, line).1.section == if Header(line).Some? then Header(line).value else st.section
  {
    hide Trim, StripPrefixCi, Rewrite, Header, DialogueFields;
  }

  lemma StylesAreNotEvents(section: string)
    ensures InStyles(section) ==> section != "events" && section != "script info"
  {
    if section == "events" || section == "script info" {
      forall i | 0 <= i <= |section|
        ensures !StartsWith(section[i..], "styles")
      {
        if |section| - i >= 6 {
          assert section[i..][..6][1] == section[i + 1] && "styles"[1] == 't';
          assert section[i..][..6][2] == section[i + 2] && "styles"[2] == 'y';
        }
      }
    }
  }

  // ----- The drawing pass over the lines -----

  lemma {:induction false} DrawLinesFacts(st: DrawPass, lines: seq<string>)
    requires Valid(st.book) && GoodChars(st.book) && CleanLines(lines) && AllUnmarked(lines)
    ensures var (out, end) := DrawLines(st, lines);
            && |out| == |lines| && CleanLines(out) && AllUnmarked(out)
            && Valid(end.book) && st.book.entries <= end.book.entries
            && (forall i :: 0 <= i < |lines| ==> Header(out[i]) == Header(lines[i]))
            && (forall i :: 0 <= i < |lines| ==> lines[i] != "" ==> out[i] != "")
    decreases |lines|
  {
    hide Header, IsComment, Valid, GoodChars, CleanLine, DrawLine;
    if lines != [] {
      var line, tail := lines[0], lines[1..];
      var (out, next) := DrawLine(st, line);
      assert CleanLine(line) && Unmarked(line);
      DrawLineClean(st, line);
      DrawLineKind(st, line);
      DrawLineBook(st, line);
      DrawLinesFacts(next, tail);
      var rest := DrawLines(next, tail).0;
      DrawLinesCons(out, rest, line, tail);
    }
  }

  // Facts about the first line and about the others are facts about all of them.
  lemma DrawLinesCons(out: string, rest: seq<string>, line: string, tail: seq<string>)
    requires |rest| == |tail| && CleanLine(out) && CleanLines(rest)
    requires Header(out) == Header(line) && (line != "" ==> out != "") && Unmarked(line) && (!IsComment(line) ==> !IsComment(out))
    requires AllUnmarked(rest)
    requires forall i :: 0 <= i < |tail| ==> Header(rest[i]) == Header(tail[i])
    requires forall i :: 0 <= i < |tail| ==> tail[i] != "" ==> rest[i] != ""
    ensures var all, lines := [out] + rest, [line] + tail;
            && CleanLines(all) && AllUnmarked(all)
            && (forall i :: 0 <= i < |lines| ==> Header(all[i]) == Header(lines[i]))
            && (forall i :: 0 <= i < |lines| ==> lines[i] != "" ==> all[i] != "")
  {
    hide Header, IsComment, CleanLine;
  }

  lemma DrawLineBook(st: DrawPass, line: string)
    requires Valid(st.book)
    ensures Valid(DrawLine(st, line).1.book) && st.book.entries <= DrawLine(st, line).1.book.entries
  {
    hide Header, Trim, StripPrefixCi, Valid, Rewrite, DialogueFields;
    if DialogueFields(line, st.format).Some? {
      DialogueFacts(line, st.format);
      var fields := DialogueFields(line, st.format).value.1;
      RewriteKeepsValid(fields[Position(st.format, "text")], st.book);
    }
  }

  // One step of the strip pass over the drawn lines.
  lemma {:induction false} ScriptStep(at: Cursor, st: Pass, lines: seq<string>, drawSubset: bool, env: StripEnv)
    requires lines != [] && Unmarked(lines[0]) && Follows(st, at, env)
    ensures var line, tail := lines[0], lines[1..];
            var base := Drawn(at, line, drawSubset);
            var next := StripLine(st, base, env).1;
            && Follows(next, Advance(at, line), env)
            && StripLines(st, AllDrawn(at, lines, drawSubset), env).0
               == (if Header(line) == Some("events") && !at.begun then env.fontLines else []) + [Treated(st, base, env)]
                  + StripLines(next, AllDrawn(Advance(at, line), tail, drawSubset), env).0
  {
    var line, tail := lines[0], lines[1..];
    LineTreated(at, st, line, drawSubset, env);
    AdvanceDraw(at, line);
    hide Header, Treated, Advance, Follows, StripLine, DrawLine, Unmarked;
    if drawSubset {
      var (out, next) := DrawLine(at.draw, line);
      assert ([out] + DrawLines(next, tail).0)[1..] == DrawLines(next, tail).0;
    }
  }

  lemma AdvanceDraw(at: Cursor, line: string)
    ensures Advance(at, line).draw == DrawLine(at.draw, line).1
  {
    hide Header, DrawLine, Trim, StripPrefixCi, InStyles, FormatFields;
  }

  // What the induction over the lines needs of the drawing pass.
  predicate Drawing(at: Cursor, lines: seq<string>, drawSubset: bool, dm: DrawMap) {
    && Valid(at.draw.book) && GoodChars(at.draw.book) && CleanLines(lines) && AllUnmarked(lines)
    && (drawSubset ==> Covers(dm, DrawLines(at.draw, lines).1.book.entries))
  }

  lemma {:induction false} DrawingStep(at: Cursor, lines: seq<string>, drawSubset: bool, dm: DrawMap)
    requires Drawing(at, lines, drawSubset, dm) && lines != []
    ensures Unmarked(lines[0]) && Valid(at.draw.book)
    ensures drawSubset ==> Covers(dm, DrawLine(at.draw, lines[0]).1.book.entries)
    ensures Drawing(Advance(at, lines[0]), lines[1..], drawSubset, dm)
  {
    var line, tail := lines[0], lines[1..];
    AdvanceDraw(at, line);
    hide Advance, DrawLine, Valid, GoodChars, Covers, CleanLine, Unmarked;
    assert CleanLine(line);
    var next := DrawLine(at.draw, line).1;
    DrawLineBook(at.draw, line);
    DrawLineClean(at.draw, line);
    DrawLinesFacts(next, tail);
    if drawSubset {
      CoversPrefix(dm, next.book.entries, DrawLines(next, tail).1.book.entries);
    }
  }

  lemma {:induction false} LinesBack(at: Cursor, st: Pass, lines: seq<string>, drawSubset: bool, m: Renaming, r: Renaming, env: StripEnv)
    requires AllShaped(at, lines, drawSubset) && AllNamesBack(at, lines, drawSubset, m, r)
    requires env.names == Compose(m, r) && Follows(st, at, env) && Drawing(at, lines, drawSubset, env.drawings)
    ensures StripLines(st, AllDrawn(at, lines, drawSubset), env).0
            == ExpectedLines(at, lines, drawSubset, Compose(m, r), env.fontLines)
    decreases |lines|
  {
    if lines != [] {
      var line, tail := lines[0], lines[1..];
      DrawingStep(at, lines, drawSubset, env.drawings);
      ScriptStep(at, st, lines, drawSubset, env);
      LineBack(at, st, line, drawSubset, m, r, env);
      var next := StripLine(st, Drawn(at, line, drawSubset), env).1;
      hide ShapedLine, NamesBack, Advance, Drawn, AllDrawn, NormalLine, Treated, Compose, Follows, Drawing, StripLine, Header;
      LinesBack(Advance(at, line), next, tail, drawSubset, m, r, env);
    }
  }

  lemma CoversPrefix(dm: DrawMap, some: seq<Entry>, all: seq<Entry>)
    requires some <= all && Covers(dm, all)
    ensures Covers(dm, some)
  {
  }

  // ----- The theorem -----

  // The text the renaming starts from, as lines.
  lemma {:induction false} BaseLines(text: string, job: Job)
    requires var lines := Lines(text);
             AllUnmarked(lines) && lines != [] && (EndsWithNewline(text) || lines[|lines| - 1] != "")
    ensures var lines, final := Lines(text), EndsWithNewline(text);
            var base := AllDrawn(AtStart, lines, job.drawSubset);
            && final == EndsWithNewline(BaseText(text, job).0) && Lines(BaseText(text, job).0) == base
            && |base| == |lines| && CleanLines(base) && AllUnmarked(base)
            && (final || base[|base| - 1] != "")
            && (forall h :: HasHeader(lines, h) ==> HasHeader(base, h))
  {
    var lines := Lines(text);
    var final := EndsWithNewline(text);
    LinesAreClean(text);
    assert Valid(EmptyBook) && GoodChars(EmptyBook);
    hide Valid, GoodChars, Lines, DrawLines, Header;
    DrawLinesFacts(FirstDrawPass, lines);
    var base := AllDrawn(AtStart, lines, job.drawSubset);
    forall h | HasHeader(lines, h)
      ensures HasHeader(base, h)
    {
      var i :| 0 <= i < |lines| && Header(lines[i]) == Some(h);
      assert Header(base[i]) == Some(h);
    }
    if job.drawSubset {
      LinesRender(base, DetectNewline(text), final);
      RenderEnding(base, DetectNewline(text), final);
    }
  }

  // The conditions of the theorem, apart from those on single lines.
  predicate GoodInput(text: string, job: Job) {
    var lines := Lines(text);
    && HasHeader(lines, "script info") && HasHeader(lines, "events")
    && (EndsWithNewline(text) || lines[|lines| - 1] != "")
    && GoodJob(text, job) && Embedded(text, job) != []
    && GoodBlocks(BlocksOf(Embedded(text, job)))
    && |BaseText(text, job).1| <= Capacity
  }

  // What the strip job reads out of the text the subset job wrote.
  lemma {:induction false} SubsetReadBack(base: seq<string>, env: SubsetEnv, blocks: seq<Block>, nl: string, final: bool)
    requires AllUnmarked(base) && CleanLines(base) && GoodEnv(env, blocks) && blocks != [] && IsNewline(nl)
    requires HasHeader(base, "script info") && HasHeader(base, "events")
    requires final || base[|base| - 1] != ""
    ensures var out := SubsetLines(FirstPass, base, env).0;
            var text := Render(SubsetResult(base, env), nl, final);
            && SubsetResult(base, env) == out
            && Lines(text) == out && EndsWithNewline(text) == final && DetectNewline(text) == nl
            && CommentMap(map[], out) == CommentMap(map[], env.comments)
            && FontsIn(out) == blocks
  {
    hide CommentMap, SubsetLines, Lines, ReadLines, GoodEnv, Render, Trim, AllUnmarked, Header, CleanLines, GoodBlocks;
    var out := SubsetLines(FirstPass, base, env).0;
    SubsetClean(FirstPass, base, env, blocks);
    SubsetComments(map[], FirstPass, base, env, blocks);
    assert Idle(Start);
    SubsetFonts(Start, FirstPass, base, env, blocks);
    EnvHasLines(env, blocks);
    hide HasHeader, Idle;
    assert [] + blocks == blocks;
    assert SubsetResult(base, env) == out;
    ReadsMany(out, blocks);
    IdleFlush(ReadLines(Start, out));
    LinesRender(out, nl, final);
    RenderEnding(out, nl, final);
    DetectRendered(out, nl, final);
  }

  lemma IdleFlush(r: Reader)
    requires Idle(r)
    ensures Flush(r).fonts == r.fonts
  {
  }

  lemma EnvHasLines(env: SubsetEnv, blocks: seq<Block>)
    requires GoodEnv(env, blocks) && blocks != []
    ensures env.fontLines != []
  {
  }

  lemma OneLineNoFonts(line: string)
    ensures ReadLines(Start, [line]).fonts == []
  {
    ReadOne(Start, line);
    hide Trim, StripPrefixCi, UuCodec.Decode, Lower;
  }

  lemma SingleLine(lines: seq<string>)
    requires lines != []
    ensures |lines| == 1 ==> lines == [lines[0]]
  {
  }

  // One line alone holds no fonts.
  lemma {:induction false} ReadsMany(lines: seq<string>, blocks: seq<Block>)
    requires ReadLines(Start, lines).fonts == blocks && blocks != []
    ensures |lines| >= 2
  {
    assert lines != [];
    SingleLine(lines);
    OneLineNoFonts(lines[0]);
  }

  // The table of original names the strip job works with.
  function Known(comments: seq<string>, inspections: seq<Inspection>): Renaming {
    Restoring(CommentMap(map[], comments), inspections)
  }

  // The lines of the fonts the strip job puts back.
  function KeptLines(text: string, job: Job, comments: seq<string>, inspections: seq<Inspection>): seq<string> {
    SectionLines(Kept(BlocksOf(Embedded(text, job)), inspections, CommentMap(map[], comments)))
  }

  // The script as it is expected back.
  function Expected(text: string, job: Job, comments: seq<string>, inspections: seq<Inspection>): string {
    Render(ExpectedLines(AtStart, Lines(text), job.drawSubset, Compose(job.names, Known(comments, inspections)),
                         KeptLines(text, job, comments, inspections)),
           DetectNewline(text), EndsWithNewline(text))
  }

  // The conditions on what the two jobs find and write.
  ghost predicate GoodJobs(text: string, job: Job, comments: seq<string>, inspections: seq<Inspection>) {
    && GoodInput(text, job) && IsComments(comments, Embedded(text, job), job.names)
    && DrawingsIn(inspections) == BaseText(text, job).1
    && AllShaped(AtStart, Lines(text), job.drawSubset)
  }

  /**
    Strip undoes subset. For a script with `[Script Info]` and `[Events]`, without markers of its
    own, whose comments can carry the names and whose font data has no line that reads as a header
    or a name: when every font name the written script uses comes back through the two renamings,
    the strip job gives the script back with its Style and Dialogue lines printed from their own
    fields, its line ends unified, and the fonts that were not renamed still in front of `[Events]`.
  */
  lemma {:induction false} StripUndoesSubset(text: string, job: Job, comments: seq<string>, inspections: seq<Inspection>)
    requires GoodJobs(text, job, comments, inspections)
    requires AllNamesBack(AtStart, Lines(text), job.drawSubset, job.names, Known(comments, inspections))
    ensures Strip(Subset(text, job, comments), inspections) == Expected(text, job, comments, inspections)
  {
    hide *;
    var env := DirectEnv(text, job, comments, inspections);
    StripWritten(text, job, comments, inspections);
    StartOfLines(text, job, comments, inspections);
    LinesBack(AtStart, FirstPass, Lines(text), job.drawSubset, job.names, Known(comments, inspections), env);
    ExpectedIs(text, job, comments, inspections);
  }

  // The one strip pass that does the work of both jobs.
  function DirectEnv(text: string, job: Job, comments: seq<string>, inspections: seq<Inspection>): StripEnv {
    StripEnv(KeptLines(text, job, comments, inspections), Compose(job.names, Known(comments, inspections)),
             EntryMap(BaseText(text, job).1))
  }

  lemma {:induction false} ExpectedIs(text: string, job: Job, comments: seq<string>, inspections: seq<Inspection>)
    ensures var env := DirectEnv(text, job, comments, inspections);
            && env.names == Compose(job.names, Known(comments, inspections))
            && Expected(text, job, comments, inspections)
               == Render(ExpectedLines(AtStart, Lines(text), job.drawSubset, env.names, env.fontLines),
                         DetectNewline(text), EndsWithNewline(text))
  {
    hide Lines, ExpectedLines, DetectNewline, Known, KeptLines, Render, Compose, EntryMap, BaseText;
  }

  // Where the induction over the lines starts.
  lemma {:induction false} StartOfLines(text: string, job: Job, comments: seq<string>, inspections: seq<Inspection>)
    requires GoodJobs(text, job, comments, inspections)
    ensures var env := DirectEnv(text, job, comments, inspections);
            && env.names == Compose(job.names, Known(comments, inspections))
            && Follows(FirstPass, AtStart, env) && Drawing(AtStart, Lines(text), job.drawSubset, env.drawings)
            && AllShaped(AtStart, Lines(text), job.drawSubset)
  {
    var lines := Lines(text);
    hide *;
    JobShaped(text, job, comments, inspections);
    LinesAreClean(text);
    ShapedUnmarked(AtStart, lines, job.drawSubset);
    EmptyIsGood();
    DrawLinesFacts(FirstDrawPass, lines);
    EntriesCovered(text, job);
    StartIs(text, job, comments, inspections);
  }

  lemma {:induction false} JobShaped(text: string, job: Job, comments: seq<string>, inspections: seq<Inspection>)
    requires GoodJobs(text, job, comments, inspections)
    ensures AllShaped(AtStart, Lines(text), job.drawSubset) && |BaseText(text, job).1| <= Capacity
  {
    hide Lines, HasHeader, AllShaped, IsComments, DrawingsIn, BaseText, Embedded, GoodJob, GoodBlocks;
  }

  lemma EmptyIsGood()
    ensures Valid(FirstDrawPass.book) && GoodChars(FirstDrawPass.book)
  {
  }

  lemma {:induction false} StartIs(text: string, job: Job, comments: seq<string>, inspections: seq<Inspection>)
    requires CleanLines(Lines(text)) && AllUnmarked(Lines(text)) && Valid(FirstDrawPass.book) && GoodChars(FirstDrawPass.book)
    requires job.drawSubset ==> Covers(EntryMap(BaseText(text, job).1), DrawLines(FirstDrawPass, Lines(text)).1.book.entries)
    ensures var env := DirectEnv(text, job, comments, inspections);
            && env.names == Compose(job.names, Known(comments, inspections))
            && Follows(FirstPass, AtStart, env) && Drawing(AtStart, Lines(text), job.drawSubset, env.drawings)
  {
    hide Lines, DrawLines, Valid, GoodChars, Covers, EntryMap, Compose, Known, KeptLines, BaseText, CleanLine, Unmarked;
  }

  // What the strip job makes of what the subset job wrote.
  lemma {:induction false} StripWritten(text: string, job: Job, comments: seq<string>, inspections: seq<Inspection>)
    requires GoodJobs(text, job, comments, inspections)
    ensures var env := DirectEnv(text, job, comments, inspections);
            Strip(Subset(text, job, comments), inspections)
            == Render(StripLines(FirstPass, AllDrawn(AtStart, Lines(text), job.drawSubset), env).0,
                      DetectNewline(text), EndsWithNewline(text))
  {
    hide *;
    var fonts, nl := Embedded(text, job), DetectNewline(text);
    var lines, final := Lines(text), EndsWithNewline(text);
    var senv := SubsetEnv(SectionLines(BlocksOf(fonts)), comments, job.names);
    InputFacts(text, job, comments, inspections);
    ShapedUnmarked(AtStart, lines, job.drawSubset);
    BaseLines(text, job);
    var base := AllDrawn(AtStart, lines, job.drawSubset);
    JobFacts(text, job, comments, inspections);
    SubsetIs(text, job, comments, base, final);
    SubsetReadBack(base, senv, BlocksOf(fonts), nl, final);
    var env := DirectEnv(text, job, comments, inspections);
    var plan := Plan(senv.fontLines, comments, job.names, Known(comments, inspections), env.drawings, env.fontLines);
    PlanIs(plan, senv);
    ExpectedIs(text, job, comments, inspections);
    StartAgrees();
    StripOfSubset(FirstPass, FirstPass, base, plan);
    StripInserted(FirstPass, base, Direct(plan));
    StripIs(text, job, comments, inspections, base, plan);
  }

  lemma {:induction false} InputFacts(text: string, job: Job, comments: seq<string>, inspections: seq<Inspection>)
    requires GoodJobs(text, job, comments, inspections)
    ensures var lines := Lines(text);
            && HasHeader(lines, "script info") && HasHeader(lines, "events")
            && lines != [] && (EndsWithNewline(text) || lines[|lines| - 1] != "")
            && IsNewline(DetectNewline(text)) && AllShaped(AtStart, lines, job.drawSubset)
  {
    hide Lines, GoodJob, Embedded, BaseText, GoodBlocks, Header, Contains, AllShaped, IsComments, DrawingsIn;
  }

  // What is inserted into the script, and that it will be recognised.
  lemma {:induction false} JobFacts(text: string, job: Job, comments: seq<string>, inspections: seq<Inspection>)
    requires GoodJobs(text, job, comments, inspections)
    ensures var blocks, r := BlocksOf(Embedded(text, job)), Known(comments, inspections);
            var env := SubsetEnv(SectionLines(blocks), comments, job.names);
            && blocks != [] && GoodEnv(env, blocks) && CleanNames(job.names)
            && SkippedWhole(env.fontLines) && Recognised(comments, r)
  {
    var blocks, r := BlocksOf(Embedded(text, job)), Known(comments, inspections);
    var table := CommentMap(map[], comments);
    hide *;
    JobParts(text, job, comments, inspections);
    CommentsPrinted(text, job, comments);
    RestoringGrows(table, inspections);
    PrintedRecognised(map[], comments, r);
    SectionSkipped(blocks);
    RecognisedHeaders(comments, r);
    EnvIsGood(SubsetEnv(SectionLines(blocks), comments, job.names), blocks);
  }

  lemma {:induction false} JobParts(text: string, job: Job, comments: seq<string>, inspections: seq<Inspection>)
    requires GoodJobs(text, job, comments, inspections)
    ensures var blocks := BlocksOf(Embedded(text, job));
            && blocks != [] && GoodBlocks(blocks) && CleanNames(job.names) && GoodJob(text, job)
            && IsComments(comments, Embedded(text, job), job.names)
            && Known(comments, inspections) == Restoring(CommentMap(map[], comments), inspections)
  {
    hide Lines, HasHeader, AllShaped, IsComments, DrawingsIn, BaseText, Embedded, GoodFonts, FontComments, GoodBlock, CommentMap;
  }

  lemma EnvIsGood(env: SubsetEnv, blocks: seq<Block>)
    requires CleanNames(env.names) && GoodBlocks(blocks) && env.fontLines == SectionLines(blocks) && CleanLines(env.comments)
    requires forall i :: 0 <= i < |env.comments| ==> Header(env.comments[i]) == None && env.comments[i] != ""
    ensures GoodEnv(env, blocks)
  {
    hide Header, CleanLine, GoodBlocks;
  }

  lemma RecognisedHeaders(comments: seq<string>, r: Renaming)
    requires Recognised(comments, r)
    ensures forall i :: 0 <= i < |comments| ==> Header(comments[i]) == None
  {
  }

  lemma SubsetIs(text: string, job: Job, comments: seq<string>, base: seq<string>, final: bool)
    requires Lines(BaseText(text, job).0) == base && EndsWithNewline(BaseText(text, job).0) == final
    ensures var env := SubsetEnv(SectionLines(BlocksOf(Embedded(text, job))), comments, job.names);
            Subset(text, job, comments) == Render(SubsetResult(base, env), DetectNewline(text), final)
  {
    hide Lines, BaseText, DetectNewline, SubsetResult, Render, SectionLines, Embedded;
  }

  lemma PlanIs(plan: Plan, env: SubsetEnv)
    requires CleanNames(plan.m) && SkippedWhole(plan.fontLines) && Recognised(plan.comments, plan.r)
    requires env == SubsetEnv(plan.fontLines, plan.comments, plan.m)
    ensures GoodPlan(plan) && Forward(plan) == env && Direct(plan).fontLines == plan.kept
  {
    hide Header, Compose, SkippedWhole, Recognised, CleanNames;
  }

  lemma StartAgrees()
    ensures Agree(FirstPass, FirstPass) && !FirstPass.skipping
  {
  }

  // The section goes in front of the first `[Events]` header, if there is one.
  lemma {:induction false} StripInserted(st: Pass, lines: seq<string>, env: StripEnv)
    ensures st.inserted || (env.fontLines != [] && HasHeader(lines, "events")) ==> StripLines(st, lines, env).1.inserted
    decreases |lines|
  {
    hide Header, IsRestoredComment, RewriteFnTags, Restore, RewriteStyleLine, Contains, Trim, StripPrefixCi;
    if lines != [] {
      HasHeaderTail(lines, "events");
      hide HasHeader;
      StripInserted(StripLine(st, lines[0], env).1, lines[1..], env);
    }
  }

  lemma {:induction false} StripIs(text: string, job: Job, comments: seq<string>, inspections: seq<Inspection>, base: seq<string>, plan: Plan)
    requires GoodJobs(text, job, comments, inspections)
    requires var fonts := Embedded(text, job);
             var env := DirectEnv(text, job, comments, inspections);
             var out := SubsetLines(FirstPass, base, Forward(plan)).0;
             var text2 := Subset(text, job, comments);
             && Lines(text2) == out && EndsWithNewline(text2) == EndsWithNewline(text)
             && DetectNewline(text2) == DetectNewline(text)
             && CommentMap(map[], out) == CommentMap(map[], comments) && FontsIn(out) == BlocksOf(fonts)
             && plan.kept == env.fontLines && plan.drawings == env.drawings && plan.r == Known(comments, inspections)
             && plan.m == job.names
             && StripLines(FirstPass, out, Backward(plan)) == StripLines(FirstPass, base, Direct(plan))
             && (env.fontLines == [] || StripLines(FirstPass, base, Direct(plan)).1.inserted)
    ensures var env := DirectEnv(text, job, comments, inspections);
            Strip(Subset(text, job, comments), inspections)
            == Render(StripLines(FirstPass, base, env).0, DetectNewline(text), EndsWithNewline(text))
  {
    var out := SubsetLines(FirstPass, base, Forward(plan)).0;
    var env := DirectEnv(text, job, comments, inspections);
    assert Direct(plan) == env;
    hide GoodInput, AllShaped, IsComments;
    assert Backward(plan) == StripEnv(KeptLines(text, job, comments, inspections), Known(comments, inspections), EntryMap(DrawingsIn(inspections)));
    hide Lines, SubsetLines, StripLines, Render, EntryMap, CommentMap, Kept, FontsIn, Subset, Embedded, BaseText, SectionLines;
    hide Compose, DetectNewline, Restoring, DrawingsIn;
    FinishPlain(out, Backward(plan));
  }

  lemma {:induction false} FinishPlain(lines: seq<string>, env: StripEnv)
    requires env.fontLines == [] || StripLines(FirstPass, lines, env).1.inserted
    ensures StripResult(lines, env) == StripLines(FirstPass, lines, env).0
  {
    hide StripLines;
    var out := StripLines(FirstPass, lines, env).0;
    assert out + [] == out;
  }

  lemma {:induction false} EntriesCovered(text: string, job: Job)
    requires Valid(DrawLines(FirstDrawPass, Lines(text)).1.book) && |BaseText(text, job).1| <= Capacity
    ensures job.drawSubset ==>
              Covers(EntryMap(BaseText(text, job).1), DrawLines(FirstDrawPass, Lines(text)).1.book.entries)
  {
    hide DrawLines, Lines, EntryMap;
    if job.drawSubset {
      var book := DrawLines(FirstDrawPass, Lines(text)).1.book;
      CharactersDistinct(book);
      hide Valid;
      EntryMapCovers(book.entries);
    }
  }

  lemma {:induction false} ShapedUnmarked(at: Cursor, lines: seq<string>, drawSubset: bool)
    requires AllShaped(at, lines, drawSubset)
    ensures AllUnmarked(lines)
    decreases |lines|
  {
    hide Advance, Header, IsComment, HasMarker, NoBraceBeforeText;
    if lines != [] {
      ShapedUnmarked(Advance(at, lines[0]), lines[1..], drawSubset);
    }
  }
}
