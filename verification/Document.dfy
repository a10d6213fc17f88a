/**
  The three passes over a whole script, line by line: drawings out, fonts in, and both undone.
  A pass is a function from its state and one line to the lines it writes and the next state.
*/
module Document {
  import opened Text
  import opened FontNames
  import opened FontsSection
  import opened Drawings
  import UuCodec

  datatype Slot = Normal | Bold | Italic | BoldItalic

  function Suffix(slot: Slot): string {
    match slot
    case Normal => "_0.ttf"
    case Bold => "_B0.ttf"
    case Italic => "_I0.ttf"
    case BoldItalic => "_BI0.ttf"
  }

  // `EmbeddedFont`
  datatype Font = Font(original: string, embedded: string, slot: Slot, data: seq<UuCodec.byte>)

  function BlocksOf(fonts: seq<Font>): (blocks: seq<Block>)
    ensures |blocks| == |fonts|
  {
    if fonts == [] then []
    else [Block(fonts[0].embedded + Suffix(fonts[0].slot), fonts[0].data)] + BlocksOf(fonts[1..])
  }

  // The section a line opens, in lower case.
  function Header(line: string): Option<string> {
    match SectionHeader(Trim(line))
    case None => None
    case Some(h) => Some(Lower(h))
  }

  // ----- Mapping comments -----

  const CommentPrefix := "; Font Subset:"
  const Dash := " - "

  function Comment(embedded: string, original: string): string {
    CommentPrefix + " " + embedded + Dash + original
  }

  function IsComment(line: string): bool {
    StripPrefixCi(Trim(line), CommentPrefix).Some?
  }

  // One comment for every renamed embedded font, the first font of each embedded name.
  function FontComments(fonts: seq<Font>, seen: set<string>): seq<string> {
    if fonts == [] then []
    else
      var f := fonts[0];
      var key := LookupName(f.embedded);
      if f.original == f.embedded || key in seen then FontComments(fonts[1..], seen)
      else [Comment(f.embedded, f.original)] + FontComments(fonts[1..], seen + {key})
  }

  // Without any, the renaming itself is recorded, in whatever order its table is walked.
  ghost predicate IsFallback(comments: seq<string>, keys: seq<string>, m: Renaming) {
    && |comments| == |keys|
    && (forall k :: k in keys <==> k in m && k != Lower(m[k]))
    && (forall i, j :: 0 <= i < j < |keys| ==> keys[i] != keys[j])
    && (forall i :: 0 <= i < |keys| ==> keys[i] in m && comments[i] == Comment(m[keys[i]], keys[i]))
  }

  ghost predicate IsComments(comments: seq<string>, fonts: seq<Font>, m: Renaming) {
    if FontComments(fonts, {}) != [] then comments == FontComments(fonts, {})
    else exists keys :: IsFallback(comments, keys, m)
  }

  // Where `separator` first occurs, or the length when it does not.
  function FindDash(s: string): (k: nat)
    ensures k <= |s| && (k < |s| ==> k + 3 <= |s|)
  {
    if s == "" || StartsWith(s, Dash) then 0 else 1 + FindDash(s[1..])
  }

  function ParseComment(line: string): Option<(string, string)> {
    match StripPrefixCi(Trim(line), CommentPrefix)
    case None => None
    case Some(rest) =>
      var t := Trim(rest);
      var k := FindDash(t);
      if k == |t| then None else Some((t[..k], t[k + 3..]))
  }

  function AddComment(found: Renaming, line: string): Renaming {
    match ParseComment(line)
    case None => found
    case Some((subset, original)) =>
      if Trim(subset) == "" || Trim(original) == "" then found
      else found[LookupName(Trim(subset)) := Trim(original)]
  }

  // `parse_font_subset_comments`
  function CommentMap(found: Renaming, lines: seq<string>): Renaming
    decreases |lines|
  {
    if lines == [] then found else CommentMap(AddComment(found, lines[0]), lines[1..])
  }

  // ----- Rewriting with embedded fonts -----

  // The variables of a pass: the section, whether a font section is being skipped, whether the
  // new one is in place, the style format, and whether the comments are in place.
  datatype Pass = Pass(section: string, skipping: bool, inserted: bool, format: seq<string>, commented: bool)

  const FirstPass := Pass("", false, false, [], false)

  // What a header writes besides itself.
  function Enter(st: Pass, h: string, line: string, fontLines: seq<string>, comments: seq<string>): (seq<string>, Pass) {
    if h == "fonts" then ([], st.(section := h, skipping := true))
    else
      var insert := h == "events" && !st.inserted && fontLines != [];
      var comment := h == "script info" && !st.commented;
      ((if insert then fontLines else []) + [line] + (if comment then comments else []),
       Pass(h, false, st.inserted || insert, st.format, st.commented || comment))
  }

  predicate InStyles(section: string) {
    Contains(section, "styles")
  }

  // A line of a styles section.
  function StyleStep(st: Pass, line: string, m: Renaming): (string, Pass) {
    var format := StripPrefixCi(Trim(line), "Format:");
    if format.Some? then (line, st.(format := FormatFields(format.value)))
    else if StripPrefixCi(Trim(line), "Style:").Some? then (RewriteStyleLine(line, st.format, m), st)
    else (line, st)
  }

  datatype SubsetEnv = SubsetEnv(fontLines: seq<string>, comments: seq<string>, names: Renaming)

  function SubsetLine(st: Pass, line: string, env: SubsetEnv): (seq<string>, Pass) {
    var h := Header(line);
    if h.Some? then Enter(st, h.value, line, env.fontLines, env.comments)
    else if st.skipping then ([], st)
    else if st.section == "script info" && IsComment(line) then ([], st)
    else if InStyles(st.section) then
      var (out, st') := StyleStep(st, line, env.names);
      ([out], st')
    else if st.section == "events" then ([RewriteFnTags(line, env.names)], st)
    else ([line], st)
  }

  function SubsetLines(st: Pass, lines: seq<string>, env: SubsetEnv): (seq<string>, Pass)
    decreases |lines|
  {
    if lines == [] then ([], st)
    else
      var (out, st') := SubsetLine(st, lines[0], env);
      var (rest, end) := SubsetLines(st', lines[1..], env);
      (out + rest, end)
  }

  // The section goes last when no `[Events]` header was met.
  function Finish(out: seq<string>, st: Pass, fontLines: seq<string>): seq<string> {
    if st.inserted then out else out + fontLines
  }

  function SubsetResult(lines: seq<string>, env: SubsetEnv): seq<string> {
    var (out, st) := SubsetLines(FirstPass, lines, env);
    Finish(out, st, env.fontLines)
  }

  // `rewrite_with_embedded_fonts`
  function SubsetText(text: string, newline: string, env: SubsetEnv): string {
    Render(SubsetResult(Lines(text), env), newline, EndsWithNewline(text))
  }

  // Lines written so far, and the same with every font section as its own lines.
  predicate SameText(out: seq<string>, flat: seq<string>, newline: string) {
    Join(out, newline) == Join(flat, newline) && (out == [] <==> flat == [])
  }

  lemma {:induction false} JoinConcat(a: seq<string>, b: seq<string>, nl: string)
    requires a != [] && b != []
    ensures Join(a + b, nl) == Join(a, nl) + nl + Join(b, nl)
    decreases |a|
  {
    if |a| == 1 {
      assert a == [a[0]] && (a + b)[1..] == b;
    } else {
      assert (a + b)[1..] == a[1..] + b;
      JoinConcat(a[1..], b, nl);
      var x, y, z := a[0] + nl, Join(a[1..], nl), Join(b, nl);
      hide Join;
      assert x + (y + nl + z) == x + y + nl + z;
    }
  }

  lemma {:induction false} PushSection(out: seq<string>, flat: seq<string>, section: seq<string>, nl: string)
    requires SameText(out, flat, nl) && section != []
    ensures SameText(out + [Join(section, nl)], flat + section, nl)
  {
    if out == [] {
      assert out + [Join(section, nl)] == [Join(section, nl)] && flat + section == section;
    } else {
      JoinConcat(out, [Join(section, nl)], nl);
      JoinConcat(flat, section, nl);
    }
  }

  lemma PushLine(out: seq<string>, flat: seq<string>, line: string, nl: string)
    requires SameText(out, flat, nl)
    ensures SameText(out + [line], flat + [line], nl)
  {
    assert Join([line], nl) == line;
    PushSection(out, flat, [line], nl);
  }

  // ----- Stripping -----

  function IsRestoredComment(line: string, r: Renaming): bool {
    match ParseComment(line)
    case None => false
    case Some((subset, _)) => LookupName(subset) in r
  }

  datatype StripEnv = StripEnv(fontLines: seq<string>, names: Renaming, drawings: DrawMap)

  function StripLine(st: Pass, line: string, env: StripEnv): (seq<string>, Pass) {
    var h := Header(line);
    if h.Some? then Enter(st, h.value, line, env.fontLines, [])
    else if st.skipping then ([], st)
    else if IsRestoredComment(line, env.names) then ([], st)
    else if InStyles(st.section) then
      var (out, st') := StyleStep(st, line, env.names);
      ([out], st')
    else if st.section == "events" then ([Restore(RewriteFnTags(line, env.names), env.drawings)], st)
    else ([line], st)
  }

  function StripLines(st: Pass, lines: seq<string>, env: StripEnv): (seq<string>, Pass)
    decreases |lines|
  {
    if lines == [] then ([], st)
    else
      var (out, st') := StripLine(st, lines[0], env);
      var (rest, end) := StripLines(st', lines[1..], env);
      (out + rest, end)
  }

  function StripResult(lines: seq<string>, env: StripEnv): seq<string> {
    var (out, st) := StripLines(FirstPass, lines, env);
    Finish(out, st, env.fontLines)
  }

  // `rewrite_strip_embedded`
  function StripText(text: string, newline: string, env: StripEnv): string {
    Render(StripResult(Lines(text), env), newline, EndsWithNewline(text))
  }

  // ----- Drawings -----

  // The indentation and fields of a `Dialogue:` line that has a Text field.
  function DialogueFields(line: string, format: seq<string>): Option<(string, seq<string>)> {
    var start := TrimStart(line);
    match StripPrefixCi(start, "Dialogue:")
    case None => None
    case Some(rest) =>
      if Position(format, "text") == |format| then None
      else Some((line[..|line| - |start|], SplitFields(TrimStart(rest), |format|)))
  }

  function DialogueLine(lead: string, fields: seq<string>): string {
    lead + "Dialogue: " + Join(fields, ",")
  }

  datatype DrawPass = DrawPass(section: string, format: seq<string>, book: Book)

  const FirstDrawPass := DrawPass("", [], EmptyBook)

  function DrawLine(st: DrawPass, line: string): (string, DrawPass) {
    var h := Header(line);
    if h.Some? then (line, st.(section := h.value))
    else if st.section != "events" then (line, st)
    else
      var format := StripPrefixCi(Trim(line), "Format:");
      if format.Some? then (line, st.(format := FormatFields(format.value)))
      else
        match DialogueFields(line, st.format)
        case None => (line, st)
        case Some((lead, fields)) =>
          var k := Position(st.format, "text");
          var (text, book) := Rewrite(fields[k], st.book);
          (DialogueLine(lead, fields[k := text]), st.(book := book))
  }

  function DrawLines(st: DrawPass, lines: seq<string>): (seq<string>, DrawPass)
    decreases |lines|
  {
    if lines == [] then ([], st)
    else
      var (out, st') := DrawLine(st, lines[0]);
      var (rest, end) := DrawLines(st', lines[1..]);
      ([out] + rest, end)
  }

  // `rewrite_drawings_as_font`
  function DrawText(text: string, newline: string): (string, Book) {
    var (out, st) := DrawLines(FirstDrawPass, Lines(text));
    (Render(out, newline, EndsWithNewline(text)), st.book)
  }
}
