/**
  The subset job and the strip job, from text to text.
*/
module Jobs {
  import opened Text
  import opened FontNames
  import opened FontsSection
  import opened Drawings
  import opened Document
  import opened RoundTrip
  import opened Markers

  // ----- Subsetting -----

  const DrawFamily := "ASSDrawSubset"

  // What the subset job is given besides the text: the fonts it embeds and its renaming. The font
  // with the drawings goes last and is there when there are drawings.
  datatype Job = Job(fonts: seq<Font>, names: Renaming, drawSubset: bool, drawData: seq<UuCodec.byte>)

  function BaseText(text: string, job: Job): (string, seq<Entry>) {
    if job.drawSubset then
      var (base, book) := DrawText(text, DetectNewline(text));
      (base, book.entries)
    else (text, [])
  }

  function Embedded(text: string, job: Job): seq<Font> {
    job.fonts + if BaseText(text, job).1 == [] then [] else [Font(DrawFamily, DrawFamily, Normal, job.drawData)]
  }

  // What `process_subset_job` writes; `comments` is what the renaming loop decided to write.
  function Subset(text: string, job: Job, comments: seq<string>): string {
    var blocks := BlocksOf(Embedded(text, job));
    SubsetText(BaseText(text, job).0, DetectNewline(text), SubsetEnv(SectionLines(blocks), comments, job.names))
  }

  // ----- Stripping -----

  // `embedded_family_name`
  const Suffixes := ["_BI0.ttf", "_B0.ttf", "_I0.ttf", "_0.ttf", ".ttf", ".otf"]

  function FamilyName(name: string, suffixes: seq<string>): string {
    if suffixes == [] then name
    else
      var n := |suffixes[0]|;
      if n <= |name| && Lower(name[|name| - n..]) == Lower(suffixes[0]) then name[..|name| - n]
      else FamilyName(name, suffixes[1..])
  }

  // What inspecting one embedded font yields: the name pair in its name table and its drawings.
  datatype Inspection = Uninspected | Inspected(pair: Option<(string, string)>, drawings: seq<Entry>)

  predicate Removable(b: Block, i: Inspection, comments: Renaming) {
    var family := LookupName(FamilyName(Trim(b.name), Suffixes));
    || family in comments || StartsWith(family, "assdrawsubset")
    || (i.Inspected? && (i.pair.Some? || i.drawings != []))
  }

  // The fonts that stay, each with its own inspection.
  function Kept(blocks: seq<Block>, inspections: seq<Inspection>, comments: Renaming): seq<Block>
    decreases |blocks|
  {
    if blocks == [] then []
    else
      var (i, rest) := if inspections == [] then (Uninspected, []) else (inspections[0], inspections[1..]);
      (if Removable(blocks[0], i, comments) then [] else [blocks[0]]) + Kept(blocks[1..], rest, comments)
  }

  // The table of original names: the comments', then what the fonts say.
  function Restoring(found: Renaming, inspections: seq<Inspection>): Renaming
    decreases |inspections|
  {
    if inspections == [] then found
    else
      var i := inspections[0];
      Restoring(if i.Inspected? && i.pair.Some? then found[LookupName(i.pair.value.0) := i.pair.value.1] else found,
                inspections[1..])
  }

  function DrawingsIn(inspections: seq<Inspection>): seq<Entry> {
    if inspections == [] then []
    else (if inspections[0].Inspected? then inspections[0].drawings else []) + DrawingsIn(inspections[1..])
  }

  // What `process_strip_job` writes.
  function Strip(text: string, inspections: seq<Inspection>): string {
    var comments := CommentMap(map[], Lines(text));
    var kept := Kept(FontsIn(Lines(text)), inspections, comments);
    StripText(text, DetectNewline(text),
              StripEnv(SectionLines(kept), Restoring(comments, inspections), EntryMap(DrawingsIn(inspections))))
  }

  lemma {:induction false} RestoringGrows(found: Renaming, inspections: seq<Inspection>)
    ensures found.Keys <= Restoring(found, inspections).Keys
    decreases |inspections|
  {
    hide LookupName;
    if inspections != [] {
      var i := inspections[0];
      RestoringGrows(if i.Inspected? && i.pair.Some? then found[LookupName(i.pair.value.0) := i.pair.value.1] else found,
                     inspections[1..]);
    }
  }

  // ----- Families -----

  lemma LowerDiffers(a: string, b: string, i: nat)
    requires |a| == |b| && i < |a| && LowerChar(a[i]) != LowerChar(b[i])
    ensures Lower(a) != Lower(b)
  {
    assert Lower(a)[i] != Lower(b)[i];
  }

  // A pattern that differs from the end of the name at one place is passed over.
  lemma {:induction false} FamilySkips(name: string, suffix: string, pattern: string, rest: seq<string>, i: nat, j: nat)
    requires i < |pattern| && j < |suffix| && |pattern| - i == |suffix| - j && LowerChar(suffix[j]) != LowerChar(pattern[i])
    ensures FamilyName(name + suffix, [pattern] + rest) == FamilyName(name + suffix, rest)
  {
    var full, n := name + suffix, |pattern|;
    assert ([pattern] + rest)[1..] == rest;
    if n <= |full| {
      assert full[|full| - n..][i] == suffix[j];
      LowerDiffers(full[|full| - n..], pattern, i);
    }
  }

  lemma {:induction false} FamilyCuts(name: string, suffix: string, rest: seq<string>)
    ensures FamilyName(name + suffix, [suffix] + rest) == name
  {
    var full := name + suffix;
    assert full[|full| - |suffix|..] == suffix && full[..|full| - |suffix|] == name;
  }

  // Cutting the suffix of a slot gives the name back: no longer suffix fits.
  lemma {:induction false} FamilyOfSuffixed(name: string, slot: Slot)
    ensures FamilyName(name + Suffix(slot), Suffixes) == name
  {
    var r4 := [".ttf", ".otf"];
    var r3 := ["_0.ttf"] + r4;
    var r2 := ["_I0.ttf"] + r3;
    var r1 := ["_B0.ttf"] + r2;
    assert Suffixes == ["_BI0.ttf"] + r1;
    hide FamilyName;
    match slot
    case BoldItalic =>
      FamilyCuts(name, "_BI0.ttf", r1);
    case Bold =>
      FamilySkips(name, "_B0.ttf", "_BI0.ttf", r1, 1, 0);
      FamilyCuts(name, "_B0.ttf", r2);
    case Italic =>
      FamilySkips(name, "_I0.ttf", "_BI0.ttf", r1, 1, 0);
      FamilySkips(name, "_I0.ttf", "_B0.ttf", r2, 1, 1);
      FamilyCuts(name, "_I0.ttf", r3);
    case Normal =>
      FamilySkips(name, "_0.ttf", "_BI0.ttf", r1, 2, 0);
      FamilySkips(name, "_0.ttf", "_B0.ttf", r2, 1, 0);
      FamilySkips(name, "_0.ttf", "_I0.ttf", r3, 1, 0);
      FamilyCuts(name, "_0.ttf", r4);
  }

  // A font the strip job will recognise: renamed, with names the comments can carry.
  predicate RenamedFont(f: Font) {
    f.original != f.embedded && CleanName(f.embedded) && GoodOriginal(f.original)
  }

  lemma RenamedFontRemovable(f: Font, i: Inspection, comments: Renaming)
    requires RenamedFont(f) && LookupName(f.embedded) in comments
    ensures Removable(Block(f.embedded + Suffix(f.slot), f.data), i, comments)
  {
    NormFontOfClean(f.embedded);
    var full := f.embedded + Suffix(f.slot);
    assert Trimmed(full);
    TrimOfTrimmed(full);
    FamilyOfSuffixed(f.embedded, f.slot);
  }

  lemma DrawFamilyLookup()
    ensures LookupName(DrawFamily) == "assdrawsubset" && StartsWith(LookupName(DrawFamily), "assdrawsubset")
  {
    TrimOfTrimmed(DrawFamily);
    assert TrimAts(DrawFamily) == DrawFamily;
    hide Trim, TrimAts;
    assert Lower(DrawFamily) == "assdrawsubset";
    assert "assdrawsubset"[..13] == "assdrawsubset";
  }

  lemma DrawFontRemovable(data: seq<UuCodec.byte>, i: Inspection, comments: Renaming)
    ensures Removable(Block(DrawFamily + Suffix(Normal), data), i, comments)
  {
    TrimOfTrimmed(DrawFamily + Suffix(Normal));
    FamilyOfSuffixed(DrawFamily, Normal);
    DrawFamilyLookup();
    hide FamilyName, Trim, LookupName;
  }

  /** The strip job keeps none of the fonts whose new names the comments record. */
  lemma {:induction false} NothingKept(fonts: seq<Font>, inspections: seq<Inspection>, comments: Renaming)
    requires forall i :: 0 <= i < |fonts| ==>
      fonts[i] == Font(DrawFamily, DrawFamily, Normal, fonts[i].data)
      || (RenamedFont(fonts[i]) && LookupName(fonts[i].embedded) in comments)
    ensures Kept(BlocksOf(fonts), inspections, comments) == []
    decreases |fonts|
  {
    hide Removable, RenamedFont, LookupName;
    if fonts != [] {
      var f := fonts[0];
      var (i, rest) := if inspections == [] then (Uninspected, []) else (inspections[0], inspections[1..]);
      if f == Font(DrawFamily, DrawFamily, Normal, f.data) {
        DrawFontRemovable(f.data, i, comments);
      } else {
        RenamedFontRemovable(f, i, comments);
      }
      NothingKept(fonts[1..], rest, comments);
      assert BlocksOf(fonts)[1..] == BlocksOf(fonts[1..]);
    }
  }

  // ----- Comments -----

  // A comment that reads back as the pair it was printed from.
  ghost predicate IsPrinted(line: string) {
    exists embedded, original :: CleanName(embedded) && GoodOriginal(original) && line == Comment(embedded, original)
  }

  ghost predicate AllPrinted(comments: seq<string>) {
    forall i :: 0 <= i < |comments| ==> IsPrinted(comments[i])
  }

  lemma PrintedFacts(found: Renaming, line: string) returns (key: string, original: string)
    requires IsPrinted(line)
    ensures AddComment(found, line) == found[key := original]
    ensures forall r: Renaming :: IsRestoredComment(line, r) <==> key in r
    ensures Header(line) == None && CleanLine(line) && line != ""
  {
    var e, o :| CleanName(e) && GoodOriginal(o) && line == Comment(e, o);
    AddPrinted(found, e, o);
    ParsePrinted(e, o);
    CommentKind(e, o);
    key, original := LookupName(e), o;
  }

  lemma {:induction false} CommentMapGrows(found: Renaming, comments: seq<string>)
    requires AllPrinted(comments)
    ensures found.Keys <= CommentMap(found, comments).Keys
    decreases |comments|
  {
    hide IsPrinted, AddComment;
    if comments != [] {
      var key, original := PrintedFacts(found, comments[0]);
      CommentMapGrows(found[key := original], comments[1..]);
    }
  }

  // Every printed comment names a font the strip job will know.
  lemma {:induction false} PrintedRecognised(found: Renaming, comments: seq<string>, r: Renaming)
    requires AllPrinted(comments) && CommentMap(found, comments).Keys <= r.Keys
    ensures Recognised(comments, r) && CleanLines(comments)
    ensures forall i :: 0 <= i < |comments| ==> comments[i] != ""
    decreases |comments|
  {
    hide IsPrinted, AddComment, Header, IsRestoredComment, CleanLine;
    if comments != [] {
      var key, original := PrintedFacts(found, comments[0]);
      CommentMapGrows(found[key := original], comments[1..]);
      assert key in r;
      PrintedRecognised(found[key := original], comments[1..], r);
    }
  }

  lemma {:induction false} FontCommentsPrinted(fonts: seq<Font>, seen: set<string>)
    requires GoodFonts(fonts)
    ensures AllPrinted(FontComments(fonts, seen))
    decreases |fonts|
  {
    hide LookupName, CleanName, GoodOriginal, Comment;
    if fonts != [] {
      var f, key := fonts[0], LookupName(fonts[0].embedded);
      FontCommentsPrinted(fonts[1..], seen);
      FontCommentsPrinted(fonts[1..], seen + {key});
      if f.original != f.embedded {
        assert IsPrinted(Comment(f.embedded, f.original));
      }
    }
  }

  // The names a job's comments have to carry: those of its renamed fonts or, when it embeds none,
  // those of its renaming.
  predicate GoodJob(text: string, job: Job) {
    && CleanNames(job.names) && GoodFonts(Embedded(text, job))
    && (FontComments(Embedded(text, job), {}) == [] ==> forall k :: k in job.names ==> GoodOriginal(k))
  }

  lemma CommentsPrinted(text: string, job: Job, comments: seq<string>)
    requires GoodJob(text, job) && IsComments(comments, Embedded(text, job), job.names)
    ensures AllPrinted(comments)
  {
    var fonts := Embedded(text, job);
    FontCommentsPrinted(fonts, {});
    hide FontComments, Comment, CleanName, GoodOriginal, Embedded, GoodFonts, Lower;
    if FontComments(fonts, {}) == [] {
      var keys :| IsFallback(comments, keys, job.names);
      forall i | 0 <= i < |comments|
        ensures IsPrinted(comments[i])
      {
        assert comments[i] == Comment(job.names[keys[i]], keys[i]);
      }
    }
  }

  // ----- Which fonts stay -----

  /** Fonts are kept one by one, in order. */
  lemma {:induction false} KeptAppend(a: seq<Block>, b: seq<Block>, x: seq<Inspection>, y: seq<Inspection>, comments: Renaming)
    requires |x| == |a|
    ensures Kept(a + b, x + y, comments) == Kept(a, x, comments) + Kept(b, y, comments)
    decreases |a|
  {
    hide *;
    if a == [] {
      KeptNone(comments);
      assert a + b == b && x + y == y && [] + Kept(b, y, comments) == Kept(b, y, comments);
    } else {
      assert (a + b)[1..] == a[1..] + b && (x + y)[1..] == x[1..] + y && (a + b)[0] == a[0] && (x + y)[0] == x[0];
      KeptUnfold(a, x, comments);
      KeptUnfold(a + b, x + y, comments);
      KeptAppend(a[1..], b, x[1..], y, comments);
      Regrouped(if Removable(a[0], x[0], comments) then [] else [a[0]], Kept(a[1..], x[1..], comments), Kept(b, y, comments));
    }
  }

  lemma {:induction false} KeptNone(comments: Renaming)
    ensures Kept([], [], comments) == []
  {
  }

  lemma {:induction false} KeptUnfold(blocks: seq<Block>, inspections: seq<Inspection>, comments: Renaming)
    requires blocks != [] && inspections != []
    ensures Kept(blocks, inspections, comments) ==
            (if Removable(blocks[0], inspections[0], comments) then [] else [blocks[0]]) + Kept(blocks[1..], inspections[1..], comments)
  {
    hide Removable;
  }

  lemma {:induction false} Regrouped(a: seq<Block>, b: seq<Block>, c: seq<Block>)
    ensures a + b + c == a + (b + c)
  {
  }

  /**
    A font stays exactly when no comment names its family, the family is not that of a drawing font,
    and inspecting it found neither a name pair nor drawings, or failed.
  */
  lemma {:induction false} OneKept(name: string, slot: Slot, data: seq<UuCodec.byte>, i: Inspection, comments: Renaming)
    requires name != "" && !IsWhitespace(name[0])
    ensures var b := Block(name + Suffix(slot), data);
            var known := LookupName(name) in comments || StartsWith(LookupName(name), "assdrawsubset");
            var found := i.Inspected? && (i.pair.Some? || i.drawings != []);
            Kept([b], [i], comments) == if known || found then [] else [b]
  {
    var full := name + Suffix(slot);
    assert Trimmed(full);
    TrimOfTrimmed(full);
    FamilyOfSuffixed(name, slot);
    var b := Block(full, data);
    assert [b][1..] == [] && Kept([], [], comments) == [];
    hide LookupName, FamilyName;
    assert Removable(b, i, comments) <==>
           LookupName(name) in comments || StartsWith(LookupName(name), "assdrawsubset") || (i.Inspected? && (i.pair.Some? || i.drawings != []));
  }

  /** The names found inside the fonts come after the comments and override them, later fonts the earlier ones. */
  lemma {:induction false} RestoringLast(found: Renaming, inspections: seq<Inspection>, i: Inspection)
    ensures Restoring(found, inspections + [i]) ==
            if i.Inspected? && i.pair.Some? then Restoring(found, inspections)[LookupName(i.pair.value.0) := i.pair.value.1]
            else Restoring(found, inspections)
    decreases |inspections|
  {
    hide LookupName;
    if inspections == [] {
      assert inspections + [i] == [i] && [i][1..] == [];
    } else {
      assert (inspections + [i])[1..] == inspections[1..] + [i] && (inspections + [i])[0] == inspections[0];
      var j := inspections[0];
      RestoringLast(if j.Inspected? && j.pair.Some? then found[LookupName(j.pair.value.0) := j.pair.value.1] else found, inspections[1..], i);
    }
  }
}
