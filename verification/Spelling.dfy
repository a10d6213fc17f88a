/**
  When every font is spelled one way: conditions on the script and the job alone. The main theorem
  asks of every name in the written script that it comes back; here the names are those of the
  original, which the drawing pass changes in known ways only, and the tables are those a job makes
  that embeds the fonts it renames.
*/
module Spelling {
  import opened Text
  import opened FontNames
  import opened Drawings
  import opened Document
  import opened Markers
  import opened DrawingLines
  import opened Jobs
  import opened RewriterTheorem
  import opened NamesShow

  // ----- The names a script uses -----

  // The arguments of the `\fn` tags of a line.
  function FnNames(s: string): set<string>
    decreases |s|
  {
    if s == "" then {} else (if IsFnTag(s) then {FnArg(s)} else {}) + FnNames(s[MatchLen(s)..])
  }

  // Event lines as they are expected back, Style lines by their font field.
  function LineNames(at: Cursor, line: string, drawSubset: bool): set<string> {
    if Header(line).Some? then {}
    else if InStyles(at.section) then
      if StripPrefixCi(Trim(line), "Style:").Some? && StyleFields(line, at.styleFormat).Some? then
        var fields := StyleFields(line, at.styleFormat).value.1;
        if FontIndex(at.styleFormat) < |fields| then {fields[FontIndex(at.styleFormat)]} else {}
      else {}
    else if at.section == "events" then FnNames(NormalEvent(at, line, drawSubset))
    else {}
  }

  function UsedNames(at: Cursor, lines: seq<string>, drawSubset: bool): set<string>
    decreases |lines|
  {
    if lines == [] then {} else LineNames(at, lines[0], drawSubset) + UsedNames(Advance(at, lines[0]), lines[1..], drawSubset)
  }

  lemma {:induction false} NamesBackOf(s: string, m: Renaming, r: Renaming)
    ensures NamesComeBack(s, m, r) <==> forall n :: n in FnNames(s) ==> ComesBack(m, r, n)
    decreases |s|
  {
    hide ComesBack;
    if s != "" {
      NamesBackOf(s[MatchLen(s)..], m, r);
    }
  }

  // ----- Names and the drawing pass -----

  lemma {:induction false} NamesAfterPlain(p: string, x: string)
    requires '\\' !in p
    ensures FnNames(p + x) == FnNames(x)
    decreases |p|
  {
    if p == "" {
      assert p + x == x;
    } else {
      assert (p + x)[0] == p[0] && (p + x)[1..] == p[1..] + x;
      assert !IsFnTag(p + x);
      NamesAfterPlain(p[1..], x);
    }
  }

  lemma {:induction false} NamesOfTag(a: string, e: string)
    requires Plain(a) && EndsArg(e)
    ensures FnNames(FN + a + e) == {a} + FnNames(e)
  {
    MatchTag(a, e);
  }

  lemma {:induction false} NamesAcrossBrace(a: string, b: string)
    ensures FnNames(a + "}" + b) == FnNames(a) + FnNames(b)
    decreases |a|
  {
    var s := a + "}" + b;
    if a == "" {
      assert s == "}" + b;
      NamesAfterPlain("}", b);
    } else if IsFnTag(a) {
      FnParts(a);
      var rest := a[MatchLen(a)..];
      assert s == FN + FnArg(a) + (rest + "}" + b);
      NamesOfTag(FnArg(a), rest + "}" + b);
      NamesAcrossBrace(rest, b);
    } else {
      assert s[|a|] == '}';
      assert !IsFnTag(s) && s[1..] == a[1..] + "}" + b;
      NamesAcrossBrace(a[1..], b);
    }
  }

  // A suffix has no names of its own.
  lemma {:induction false} NamesSuffix(a: string, b: string)
    ensures FnNames(b) <= FnNames(a + b)
    decreases |a|
  {
    var s := a + b;
    if a == "" {
      assert s == b;
    } else {
      var n := MatchLen(s);
      if n <= |a| {
        assert s[n..] == a[n..] + b;
        NamesSuffix(a[n..], b);
      } else {
        FnParts(s);
        var j := n - |a|;
        assert b == b[..j] + b[j..] && s[n..] == b[j..];
        assert s[|a|..n] == b[..j];
        assert '\\' !in b[..j] by { TagHasOneBackslash(s, |a|); }
        NamesAfterPlain(b[..j], b[j..]);
      }
    }
  }

  lemma TagHasOneBackslash(s: string, i: nat)
    requires IsFnTag(s) && 1 <= i <= MatchLen(s)
    ensures '\\' !in s[i..MatchLen(s)]
  {
    FnParts(s);
    var n := MatchLen(s);
    forall k | i <= k < n
      ensures s[k] != '\\'
    {
      if k >= 3 {
        assert s[k] == FnArg(s)[k - 3];
        assert FnArg(s)[k - 3] in FnArg(s);
      }
    }
  }

  // A tag whose argument runs into the brace.
  lemma {:induction false} TagJoined(a: string, x: string) returns (arg: string, j: nat)
    requires IsFnTag(a) && MatchLen(a) == |a| && x != "" && x[0] == '{'
    ensures j <= |x| && a + x == FN + arg + x[j..] && x == x[..j] + x[j..]
    ensures Plain(arg) && EndsArg(x[j..]) && '{' in arg && '\\' !in x[..j]
  {
    FnParts(a);
    ArgEndFacts(x);
    j := ArgEnd(x);
    arg := FnArg(a) + x[..j];
    assert a == FN + FnArg(a) && x == x[..j] + x[j..];
    assert x[..j][0] == '{';
    hide FnArg, MatchLen, ArgEnd;
    assert a + x == FN + (FnArg(a) + x[..j]) + x[j..];
  }

  lemma {:induction false} TagRunsOn(a: string, x: string, n: string)
    requires IsFnTag(a) && MatchLen(a) == |a| && x != "" && x[0] == '{' && n in FnNames(a + x)
    ensures '{' in n || n in FnNames(x)
  {
    var arg, j := TagJoined(a, x);
    hide *;
    NamesOfTag(arg, x[j..]);
    NamesAfterPlain(x[..j], x[j..]);
  }

  // A tag whose argument ends before the brace.
  lemma {:induction false} TagStays(a: string, x: string)
    requires IsFnTag(a) && MatchLen(a) < |a|
    ensures FnNames(a + x) == {FnArg(a)} + FnNames(a[MatchLen(a)..] + x)
  {
    FnParts(a);
    var arg, e := FnArg(a), a[MatchLen(a)..];
    hide MatchLen, FnArg, FnNames;
    assert a + x == FN + arg + (e + x);
    NamesOfTag(arg, e + x);
  }

  lemma {:induction false} CharStays(a: string, x: string)
    requires a != "" && x != "" && x[0] == '{' && !IsFnTag(a)
    ensures FnNames(a + x) == FnNames(a[1..] + x)
  {
    var s := a + x;
    assert s[|a|] == '{' && s[1..] == a[1..] + x;
    assert !IsFnTag(s);
  }

  // What stands before a brace has the same names whatever the brace opens, apart from names that
  // run into it.
  lemma {:induction false} NamesBeforeBrace(a: string, x: string, y: string, n: string)
    requires x != "" && x[0] == '{' && y != "" && y[0] == '{' && n in FnNames(a + x)
    ensures n in FnNames(a + y) || '{' in n || n in FnNames(x)
    decreases |a|
  {
    if a == "" {
      assert a + x == x;
    } else if !IsFnTag(a) {
      CharStays(a, x);
      CharStays(a, y);
      NamesBeforeBrace(a[1..], x, y, n);
    } else if MatchLen(a) < |a| {
      TagStays(a, x);
      TagStays(a, y);
      hide FnNames, FnArg;
      if n != FnArg(a) {
        NamesBeforeBrace(a[MatchLen(a)..], x, y, n);
      }
    } else {
      TagRunsOn(a, x, n);
    }
  }

  // Every name of the one text is a name of the other, or the drawing font, or has a brace in it.
  predicate Within(x: string, y: string) {
    forall n :: n in FnNames(x) ==> n in FnNames(y) || n == DrawFamily || '{' in n
  }

  lemma {:induction false} NamesOfToken(ch: string, z: string)
    requires '\\' !in ch
    ensures FnNames(Token + ch + z) == {DrawFamily} + FnNames(z)
  {
    TokenParts(ch, z);
    MarkerParts();
    var tail := "\\" + ((LevelEnd + ch) + z);
    NamesAfterPlain("{", FN + DrawFamily + tail);
    NamesOfTag(DrawFamily, tail);
    assert tail[1..] == (LevelEnd + ch) + z && !IsFnTag(tail);
    NamesAfterPlain(LevelEnd + ch, z);
  }

  lemma {:induction false} TokenWithin(f: string, ch: string, z: string, drawing: string, w: string)
    requires '\\' !in ch && drawing != "" && drawing[0] == '{' && Within(z, w)
    ensures Within(f + (Token + ch + z), f + (drawing + w))
  {
    var x, y := Token + ch + z, drawing + w;
    forall n | n in FnNames(f + x)
      ensures n in FnNames(f + y) || n == DrawFamily || '{' in n
    {
      NamesBeforeBrace(f, x, y, n);
      NamesOfToken(ch, z);
      NamesSuffix(drawing, w);
      NamesSuffix(f, y);
    }
  }

  lemma {:induction false} BlockWithin(k: string, z: string, w: string)
    requires k != "" && k[|k| - 1] == '}' && Within(z, w)
    ensures Within(k + z, k + w)
  {
    var a := k[..|k| - 1];
    assert k + z == a + "}" + z && k + w == a + "}" + w;
    NamesAcrossBrace(a, z);
    NamesAcrossBrace(a, w);
  }

  // The names after the drawing pass, for a text with something before and after it.
  lemma {:induction false} RewriteWithin(f: string, s: string, q: string, book: Book)
    requires Valid(book) && GoodChars(book)
    ensures Within(f + (Rewrite(s, book).0 + q), f + (s + q))
    decreases |s|
  {
    if s == "" || (NextPiece(s).drawing == "" && NextPiece(s).rest == "") {
      RewriteLast(s, book);
    } else {
      hide *;
      var p := NextPiece(s);
      Drawings.RewriteStep(s, book);
      PieceSplits(s);
      RoundFacts(s, book);
      RoundGood(p, book);
      var (out, book1) := Round(p, book);
      var rest := Rewrite(p.rest, book1).0;
      RewriteWithin("", p.rest, q, book1);
      Empty(rest + q, p.rest + q);
      PieceWithin(f, s, p, book, rest + q, p.rest + q);
      Assoc(out, rest, q);
      PieceAssoc(p, q);
    }
  }

  lemma Empty(x: string, y: string)
    ensures "" + x == x && "" + y == y
  {
  }

  lemma RoundGood(p: Piece, book: Book)
    requires GoodChars(book)
    ensures GoodChars(Round(p, book).1)
  {
    if p.drawing != "" {
      RegisterGoodChar(book, p.drawing, p.level);
    }
  }

  lemma {:induction false} KeptWithin(f: string, kept: string, z: string, w: string)
    requires kept != "" && kept[|kept| - 1] == '}' && Within(z, w)
    ensures Within(f + (kept + z), f + (kept + "" + w))
  {
    var k := f + kept;
    assert f + (kept + z) == k + z && f + (kept + "" + w) == k + w && k[|k| - 1] == '}';
    hide Within;
    BlockWithin(k, z, w);
  }

  lemma {:induction false} DrawingWithin(f: string, kept: string, ch: string, z: string, drawing: string, w: string)
    requires '\\' !in ch && drawing != "" && drawing[0] == '{' && Within(z, w)
    ensures Within(f + (kept + Token + ch + z), f + (kept + drawing + w))
  {
    hide Within;
    TokenWithin(f + kept, ch, z, drawing, w);
    FourParts(f, kept, Token, ch, z);
    ThreeParts(f, kept, drawing, w);
  }

  lemma FourParts(a: string, b: string, c: string, d: string, e: string)
    ensures a + (b + c + d + e) == (a + b) + (c + d + e)
  {
  }

  lemma ThreeParts(a: string, b: string, c: string, d: string)
    ensures a + (b + c + d) == (a + b) + (c + d)
  {
  }

  lemma RoundParts(p: Piece, book: Book) returns (ch: string)
    requires GoodChars(book)
    ensures '\\' !in ch && Round(p, book).0 == if p.drawing == "" then p.kept else p.kept + Token + ch
  {
    if p.drawing == "" {
      ch := "";
    } else {
      RegisterGoodChar(book, p.drawing, p.level);
      ch := Register(book, p.drawing, p.level).1;
      hide Register, GoodChars;
    }
  }

  lemma PieceBrace(s: string, p: Piece)
    requires s != "" && p == NextPiece(s) && !(p.drawing == "" && p.rest == "")
    ensures if p.drawing == "" then p.kept != "" && p.kept[|p.kept| - 1] == '}' else p.drawing[0] == '{'
  {
    PieceSplits(s);
    if p.drawing != "" {
      PieceDrawing(s);
    }
    hide *;
  }

  lemma {:induction false} PieceWithin(f: string, s: string, p: Piece, book: Book, z: string, w: string)
    requires s != "" && p == NextPiece(s) && GoodChars(book) && Within(z, w)
    requires !(p.drawing == "" && p.rest == "")
    ensures Within(f + (Round(p, book).0 + z), f + (p.kept + p.drawing + w))
  {
    hide *;
    PieceBrace(s, p);
    var ch := RoundParts(p, book);
    if p.drawing == "" {
      KeptWithin(f, p.kept, z, w);
    } else {
      DrawingWithin(f, p.kept, ch, z, p.drawing, w);
    }
  }

  // The names of an event line after the drawing pass.
  lemma {:induction false} DrawnWithin(at: Cursor, line: string, drawSubset: bool)
    requires Header(line) == None && at.section == at.draw.section == "events"
    requires Valid(at.draw.book) && GoodChars(at.draw.book)
    ensures Within(Drawn(at, line, drawSubset), NormalEvent(at, line, drawSubset))
  {
    FormatLineIsKept(at.draw, line);
    if drawSubset && StripPrefixCi(Trim(line), "Format:").None? && DialogueFields(line, at.draw.format).Some? {
      DialogueFacts(line, at.draw.format);
      hide Within, Rewrite, Valid, GoodChars, Trim, StripPrefixCi, Header, DialogueFields;
      var (lead, fields) := DialogueFields(line, at.draw.format).value;
      var k := Position(at.draw.format, "text");
      var text := Rewrite(fields[k], at.draw.book).0;
      var front, back := lead + "Dialogue: " + Before(fields, k), DrawingLines.After(fields, k);
      LineAround(lead, fields, k, text);
      LineAround(lead, fields, k, fields[k]);
      assert fields[k := fields[k]] == fields;
      RewriteWithin(front, fields[k], back, at.draw.book);
    }
  }

  // ----- All names of a script -----

  // No table has a name with a brace, and the drawing font keeps its name.
  predicate DrawingNamesBack(m: Renaming, r: Renaming) {
    ComesBack(m, r, DrawFamily) && forall k :: k in m.Keys + r.Keys ==> '{' !in k
  }

  lemma BraceComesBack(m: Renaming, r: Renaming, name: string)
    requires DrawingNamesBack(m, r) && '{' in name
    ensures ComesBack(m, r, name)
  {
    LookupKeepsBrace(name);
  }

  lemma {:induction false} LineNamesBack(at: Cursor, line: string, drawSubset: bool, m: Renaming, r: Renaming)
    requires at.section == at.draw.section && Valid(at.draw.book) && GoodChars(at.draw.book)
    requires forall n :: n in LineNames(at, line, drawSubset) ==> ComesBack(m, r, n)
    requires drawSubset ==> DrawingNamesBack(m, r)
    ensures NamesBack(at, line, drawSubset, m, r)
  {
    StylesAreNotEvents(at.section);
    if Header(line) == None && at.section == "events" {
      var base := Drawn(at, line, drawSubset);
      DrawnWithin(at, line, drawSubset);
      assert LineNames(at, line, drawSubset) == FnNames(NormalEvent(at, line, drawSubset));
      hide LineNames, FnNames, NormalEvent, ComesBack, Header, Valid, GoodChars, InStyles, StyleComesBack, Trim, StripPrefixCi;
      forall n | n in FnNames(base)
        ensures ComesBack(m, r, n)
      {
        if drawSubset && '{' in n {
          BraceComesBack(m, r, n);
        }
      }
      NamesBackOf(base, m, r);
    } else {
      hide FnNames, ComesBack, Header, Valid, GoodChars, Contains, Trim, StripPrefixCi, StyleFields;
    }
  }

  lemma SectionsAgree(at: Cursor, line: string)
    requires at.section == at.draw.section
    ensures Advance(at, line).section == Advance(at, line).draw.section
  {
    DrawLineSection(at.draw, line);
    hide Header, DrawLine, Trim, StripPrefixCi, InStyles, FormatFields;
  }

  lemma {:induction false} UsedNamesBack(at: Cursor, lines: seq<string>, drawSubset: bool, m: Renaming, r: Renaming, dm: DrawMap)
    requires at.section == at.draw.section && Drawing(at, lines, drawSubset, dm)
    requires forall n :: n in UsedNames(at, lines, drawSubset) ==> ComesBack(m, r, n)
    requires drawSubset ==> DrawingNamesBack(m, r)
    ensures AllNamesBack(at, lines, drawSubset, m, r)
    decreases |lines|
  {
    if lines != [] {
      DrawingStep(at, lines, drawSubset, dm);
      assert GoodChars(at.draw.book);
      SectionsAgree(at, lines[0]);
      hide LineNames, ComesBack, Drawing, Advance, NamesBack, Valid, GoodChars, Covers, DrawLine, DrawingNamesBack;
      LineNamesBack(at, lines[0], drawSubset, m, r);
      UsedNamesBack(Advance(at, lines[0]), lines[1..], drawSubset, m, r, dm);
    }
  }

  // ----- One spelling -----

  // No font is spelled in two ways.
  predicate OneWay(used: set<string>) {
    forall a, b :: a in used && b in used && LookupName(a) == LookupName(b) ==> a == b
  }

  // The job embeds fonts of the script under their new names, and every font it renames in it.
  predicate EmbedsItsNames(job: Job, used: set<string>) {
    && (forall i :: 0 <= i < |job.fonts| ==>
          var f := job.fonts[i];
          f.original in used && f.original != f.embedded
          && LookupName(f.original) in job.names && job.names[LookupName(f.original)] == f.embedded)
    && (forall n :: n in used && LookupName(n) in job.names ==>
          exists i :: 0 <= i < |job.fonts| && job.fonts[i].embedded == job.names[LookupName(n)])
  }

  // New names differ from each other and from every name in use.
  predicate FreshNames(m: Renaming, used: set<string>) {
    && (forall j, k :: j in m && k in m && LookupName(m[j]) == LookupName(m[k]) ==> j == k)
    && (forall n, k :: n in used && k in m ==> LookupName(m[k]) != LookupName(n))
  }

  // The drawing font is not renamed, and no renamed name has a brace.
  predicate SparesDrawings(m: Renaming) {
    && "assdrawsubset" !in m && (forall k :: k in m ==> '{' !in k && LookupName(m[k]) != "assdrawsubset")
  }

  // The name pairs found inside the fonts are those the fonts were embedded under.
  predicate PairsAgree(job: Job, inspections: seq<Inspection>) {
    forall i :: 0 <= i < |inspections| && inspections[i].Inspected? && inspections[i].pair.Some? ==>
      exists j :: 0 <= j < |job.fonts| && LookupName(job.fonts[j].embedded) == LookupName(inspections[i].pair.value.0)
        && job.fonts[j].original == inspections[i].pair.value.1
  }

  // What an entry of the table of original names is: the original of a font embedded under that name.
  predicate FromFonts(r: Renaming, fonts: seq<Font>) {
    forall key :: key in r ==> exists i :: 0 <= i < |fonts| && LookupName(fonts[i].embedded) == key && fonts[i].original == r[key]
  }

  lemma {:induction false} RestoringFromFonts(found: Renaming, inspections: seq<Inspection>, job: Job)
    requires FromFonts(found, job.fonts) && PairsAgree(job, inspections)
    ensures FromFonts(Restoring(found, inspections), job.fonts)
    decreases |inspections|
  {
    hide LookupName;
    if inspections != [] {
      var i := inspections[0];
      var found' := if i.Inspected? && i.pair.Some? then found[LookupName(i.pair.value.0) := i.pair.value.1] else found;
      assert FromFonts(found', job.fonts);
      assert PairsAgree(job, inspections[1..]) by {
        assert forall k :: 0 <= k < |inspections[1..]| ==> inspections[1..][k] == inspections[k + 1];
      }
      RestoringFromFonts(found', inspections[1..], job);
    }
  }

  // An entry of the comments' table is the original of a renamed font embedded under that name.
  lemma {:induction false} OriginalsFrom(fonts: seq<Font>, found: Renaming, key: string)
    requires key in Originals(fonts, found)
    ensures (key in found && Originals(fonts, found)[key] == found[key])
            || exists i :: 0 <= i < |fonts| && LookupName(fonts[i].embedded) == key
                 && fonts[i].original == Originals(fonts, found)[key] && fonts[i].original != fonts[i].embedded
    decreases |fonts|
  {
    hide LookupName;
    if fonts != [] {
      var f, k := fonts[0], LookupName(fonts[0].embedded);
      var found' := if f.original == f.embedded || k in found then found else found[k := f.original];
      OriginalsFrom(fonts[1..], found', key);
      if !(key in found' && Originals(fonts[1..], found')[key] == found'[key]) {
        var i :| 0 <= i < |fonts[1..]| && LookupName(fonts[1..][i].embedded) == key
          && fonts[1..][i].original == Originals(fonts[1..], found')[key] && fonts[1..][i].original != fonts[1..][i].embedded;
        assert fonts[i + 1] == fonts[1..][i];
      }
    }
  }

  lemma {:induction false} OriginalsHave(fonts: seq<Font>, found: Renaming, i: nat)
    requires i < |fonts| && fonts[i].original != fonts[i].embedded
    ensures LookupName(fonts[i].embedded) in Originals(fonts, found)
    decreases |fonts|
  {
    hide LookupName;
    var f, key := fonts[0], LookupName(fonts[0].embedded);
    var found' := if f.original == f.embedded || key in found then found else found[key := f.original];
    if i == 0 {
      OriginalsGrow(fonts[1..], found');
    } else {
      OriginalsHave(fonts[1..], found', i - 1);
    }
  }

  lemma EmbeddedFont(text: string, job: Job, i: nat)
    requires i < |Embedded(text, job)| && Embedded(text, job)[i].original != Embedded(text, job)[i].embedded
    ensures i < |job.fonts| && job.fonts[i] == Embedded(text, job)[i]
  {
    hide BaseText;
  }

  // The table of a job that embeds renamed fonts.
  lemma {:induction false} FontTable(text: string, job: Job, comments: seq<string>)
    requires GoodJob(text, job) && IsComments(comments, Embedded(text, job), job.names)
    requires FontComments(Embedded(text, job), {}) != []
    ensures FromFonts(CommentMap(map[], comments), job.fonts)
    ensures forall i :: 0 <= i < |job.fonts| && job.fonts[i].original != job.fonts[i].embedded ==>
              LookupName(job.fonts[i].embedded) in CommentMap(map[], comments)
  {
    var fonts := Embedded(text, job);
    var none: Renaming := map[];
    assert none.Keys == {};
    hide GoodFonts, FontComments, Originals, CommentMap, LookupName, BaseText;
    CommentsRead(fonts, none);
    var r := Originals(fonts, none);
    forall key | key in r
      ensures exists i :: 0 <= i < |job.fonts| && LookupName(job.fonts[i].embedded) == key && job.fonts[i].original == r[key]
    {
      OriginalsFrom(fonts, none, key);
      var i :| 0 <= i < |fonts| && LookupName(fonts[i].embedded) == key && fonts[i].original == r[key]
        && fonts[i].original != fonts[i].embedded;
      EmbeddedFont(text, job, i);
    }
    forall i | 0 <= i < |job.fonts| && job.fonts[i].original != job.fonts[i].embedded
      ensures LookupName(job.fonts[i].embedded) in r
    {
      assert fonts[i] == job.fonts[i];
      OriginalsHave(fonts, none, i);
    }
  }

  // A comment of the renaming itself.
  ghost predicate OfRenaming(line: string, m: Renaming) {
    exists k :: k in m && GoodOriginal(k) && line == Comment(m[k], k)
  }

  // Without any renamed font the comments are those of the renaming, under its new names.
  lemma {:induction false} FallbackKeys(found: Renaming, comments: seq<string>, m: Renaming, key: string)
    requires CleanNames(m) && key in CommentMap(found, comments)
    requires forall i :: 0 <= i < |comments| ==> OfRenaming(comments[i], m)
    ensures key in found || exists k :: k in m && key == LookupName(m[k])
    decreases |comments|
  {
    hide Comment, LookupName, GoodOriginal, CleanName;
    if comments != [] {
      var k :| k in m && GoodOriginal(k) && comments[0] == Comment(m[k], k);
      AddPrinted(found, m[k], k);
      hide AddComment;
      assert forall i :: 0 <= i < |comments[1..]| ==> comments[1..][i] == comments[i + 1];
      FallbackKeys(found[LookupName(m[k]) := k], comments[1..], m, key);
    }
  }

  lemma {:induction false} FallbackTable(text: string, job: Job, comments: seq<string>)
    requires GoodJob(text, job) && IsComments(comments, Embedded(text, job), job.names)
    requires FontComments(Embedded(text, job), {}) == []
    ensures forall key :: key in CommentMap(map[], comments) ==> exists k :: k in job.names && key == LookupName(job.names[k])
  {
    hide BaseText, LookupName, GoodFonts, CleanName, GoodOriginal, CommentMap, FontComments, Embedded, Comment, Lower;
    var keys :| IsFallback(comments, keys, job.names);
    forall i | 0 <= i < |comments|
      ensures OfRenaming(comments[i], job.names)
    {
      var k := keys[i];
      assert k in job.names && comments[i] == Comment(job.names[k], k);
    }
    forall key | key in CommentMap(map[], comments)
      ensures exists k :: k in job.names && key == LookupName(job.names[k])
    {
      FallbackKeys(map[], comments, job.names, key);
    }
  }

  // The table of original names: its keys are new names, and it knows every renamed name in use.
  predicate Restores(r: Renaming, m: Renaming, used: set<string>) {
    && (forall key :: key in r ==> exists k :: k in m && key == LookupName(m[k]))
    && (forall n :: n in used && LookupName(n) in m ==> LookupName(m[LookupName(n)]) in r && r[LookupName(m[LookupName(n)])] == n)
  }

  lemma FontsRestore(r: Renaming, job: Job, used: set<string>)
    requires OneWay(used) && EmbedsItsNames(job, used) && FreshNames(job.names, used) && FromFonts(r, job.fonts)
    requires forall i :: 0 <= i < |job.fonts| ==> LookupName(job.fonts[i].embedded) in r
    ensures Restores(r, job.names, used)
  {
    hide LookupName;
    var m := job.names;
    forall key | key in r
      ensures exists k :: k in m && key == LookupName(m[k])
    {
      var i :| 0 <= i < |job.fonts| && LookupName(job.fonts[i].embedded) == key && job.fonts[i].original == r[key];
      assert LookupName(job.fonts[i].original) in m;
    }
    forall n | n in used && LookupName(n) in m
      ensures LookupName(m[LookupName(n)]) in r && r[LookupName(m[LookupName(n)])] == n
    {
      NameRestored(r, job, used, n);
    }
  }

  lemma NameRestored(r: Renaming, job: Job, used: set<string>, n: string)
    requires OneWay(used) && EmbedsItsNames(job, used) && FreshNames(job.names, used) && FromFonts(r, job.fonts)
    requires forall i :: 0 <= i < |job.fonts| ==> LookupName(job.fonts[i].embedded) in r
    requires n in used && LookupName(n) in job.names
    ensures var key := LookupName(job.names[LookupName(n)]); key in r && r[key] == n
  {
    hide LookupName;
    var key := LookupName(job.names[LookupName(n)]);
    var i :| 0 <= i < |job.fonts| && job.fonts[i].embedded == job.names[LookupName(n)];
    assert key in r;
    var j :| 0 <= j < |job.fonts| && LookupName(job.fonts[j].embedded) == key && job.fonts[j].original == r[key];
    assert LookupName(job.names[LookupName(job.fonts[j].original)]) == key;
  }

  lemma {:induction false} KnownRestores(text: string, job: Job, comments: seq<string>, inspections: seq<Inspection>, used: set<string>)
    requires GoodJob(text, job) && IsComments(comments, Embedded(text, job), job.names)
    requires OneWay(used) && EmbedsItsNames(job, used) && FreshNames(job.names, used) && PairsAgree(job, inspections)
    ensures Restores(Known(comments, inspections), job.names, used)
  {
    hide BaseText, LookupName, GoodFonts, CleanName, GoodOriginal, CommentMap;
    var found := CommentMap(map[], comments);
    var fonts := Embedded(text, job);
    if FontComments(fonts, {}) != [] {
      FontTable(text, job, comments);
      RestoringFromFonts(found, inspections, job);
      RestoringGrows(found, inspections);
      hide FontComments, Restoring, FreshNames, OneWay, PairsAgree, IsComments, FromFonts;
      FontsRestore(Known(comments, inspections), job, used);
    } else {
      NoPairs(found, inspections, job);
      hide FontComments, PairsAgree, OneWay;
      FallbackTable(text, job, comments);
    }
  }

  lemma {:induction false} NoPairs(found: Renaming, inspections: seq<Inspection>, job: Job)
    requires job.fonts == [] && PairsAgree(job, inspections)
    ensures Restoring(found, inspections) == found
    decreases |inspections|
  {
    if inspections != [] {
      assert PairsAgree(job, inspections[1..]) by {
        assert forall k :: 0 <= k < |inspections[1..]| ==> inspections[1..][k] == inspections[k + 1];
      }
      NoPairs(found, inspections[1..], job);
    }
  }

  lemma UsedComesBack(n: string, r: Renaming, m: Renaming, used: set<string>)
    requires Restores(r, m, used) && FreshNames(m, used) && n in used
    ensures ComesBack(m, r, n)
  {
    hide LookupName;
  }

  lemma DrawingsSpared(r: Renaming, m: Renaming, used: set<string>)
    requires Restores(r, m, used) && SparesDrawings(m) && CleanNames(m)
    ensures DrawingNamesBack(m, r)
  {
    DrawFamilyLookup();
    hide LookupName, CleanName;
    forall key | key in r
      ensures '{' !in key
    {
      var k :| k in m && key == LookupName(m[k]);
      CleanLookupNoBrace(m[k]);
    }
  }

  lemma CleanLookupNoBrace(name: string)
    requires CleanName(name)
    ensures '{' !in LookupName(name)
  {
    NormFontOfClean(name);
    hide NormFont;
    var low := Lower(name);
    forall i | 0 <= i < |low|
      ensures low[i] != '{'
    {
      assert name[i] in name;
    }
  }

  // Everything the corollary asks of the script, the job and what the fonts say.
  predicate SpelledOneWay(text: string, job: Job, inspections: seq<Inspection>) {
    var used := UsedNames(AtStart, Lines(text), job.drawSubset);
    && OneWay(used) && EmbedsItsNames(job, used) && FreshNames(job.names, used) && PairsAgree(job, inspections)
    && (job.drawSubset ==> SparesDrawings(job.names))
  }

  /**
    When every font is spelled one way, its new name is fresh and the drawing font keeps its name,
    stripping what the job wrote gives the script back, and no font stays.
  */
  lemma {:induction false} OneSpellingComesBack(text: string, job: Job, comments: seq<string>, inspections: seq<Inspection>)
    requires GoodJobs(text, job, comments, inspections) && SpelledOneWay(text, job, inspections)
    ensures Strip(Subset(text, job, comments), inspections) == Expected(text, job, comments, inspections)
    ensures AllNamesBack(AtStart, Lines(text), job.drawSubset, job.names, Known(comments, inspections))
    ensures KeptLines(text, job, comments, inspections) == []
  {
    var m, r := job.names, Known(comments, inspections);
    var used := UsedNames(AtStart, Lines(text), job.drawSubset);
    hide *;
    JobIsGood(text, job, comments, inspections);
    SpellingParts(text, job, inspections);
    KnownRestores(text, job, comments, inspections, used);
    forall n | n in used
      ensures ComesBack(m, r, n)
    {
      UsedComesBack(n, r, m, used);
    }
    if job.drawSubset {
      DrawingsSpared(r, m, used);
    }
    StartOfLines(text, job, comments, inspections);
    UsedNamesBack(AtStart, Lines(text), job.drawSubset, m, r, DirectEnv(text, job, comments, inspections).drawings);
    StripUndoesSubset(text, job, comments, inspections);
    NoFontStays(text, job, comments, inspections, used);
  }

  lemma {:induction false} NoFontStays(text: string, job: Job, comments: seq<string>, inspections: seq<Inspection>, used: set<string>)
    requires GoodJob(text, job) && IsComments(comments, Embedded(text, job), job.names) && EmbedsItsNames(job, used)
    ensures KeptLines(text, job, comments, inspections) == []
  {
    var fonts, table := Embedded(text, job), CommentMap(map[], comments);
    hide *;
    forall i | 0 <= i < |fonts|
      ensures fonts[i] == Font(DrawFamily, DrawFamily, Normal, fonts[i].data)
              || (RenamedFont(fonts[i]) && LookupName(fonts[i].embedded) in table)
    {
      FontIsKnown(text, job, comments, used, i);
    }
    NothingKept(fonts, inspections, table);
    NoLines(text, job, comments, inspections);
  }

  lemma {:induction false} NoLines(text: string, job: Job, comments: seq<string>, inspections: seq<Inspection>)
    requires Kept(BlocksOf(Embedded(text, job)), inspections, CommentMap(map[], comments)) == []
    ensures KeptLines(text, job, comments, inspections) == []
  {
    hide Kept, BlocksOf, Embedded, CommentMap;
  }

  lemma {:induction false} FontIsKnown(text: string, job: Job, comments: seq<string>, used: set<string>, i: nat)
    requires GoodJob(text, job) && IsComments(comments, Embedded(text, job), job.names) && EmbedsItsNames(job, used)
    requires i < |Embedded(text, job)|
    ensures var f := Embedded(text, job)[i];
            f == Font(DrawFamily, DrawFamily, Normal, f.data)
            || (RenamedFont(f) && LookupName(f.embedded) in CommentMap(map[], comments))
  {
    hide BaseText, LookupName, CleanName, GoodOriginal, CommentMap, FontComments, IsComments;
    var fonts := Embedded(text, job);
    if i < |job.fonts| {
      assert fonts[i] == job.fonts[i];
      SomeComment(fonts) by { assert fonts[0] == job.fonts[0]; }
      FontTable(text, job, comments);
    }
  }

  lemma {:induction false} SomeComment(fonts: seq<Font>)
    requires fonts != [] && fonts[0].original != fonts[0].embedded
    ensures FontComments(fonts, {}) != []
  {
  }

  lemma JobIsGood(text: string, job: Job, comments: seq<string>, inspections: seq<Inspection>)
    requires GoodJobs(text, job, comments, inspections)
    ensures GoodJob(text, job) && IsComments(comments, Embedded(text, job), job.names) && CleanNames(job.names)
    ensures AtStart.section == AtStart.draw.section
  {
    hide Lines, AllShaped, IsComments, DrawingsIn, BaseText, Embedded, GoodFonts, FontComments;
  }

  lemma {:induction false} SpellingParts(text: string, job: Job, inspections: seq<Inspection>)
    requires SpelledOneWay(text, job, inspections)
    ensures var used := UsedNames(AtStart, Lines(text), job.drawSubset);
            && OneWay(used) && EmbedsItsNames(job, used) && FreshNames(job.names, used) && PairsAgree(job, inspections)
            && (job.drawSubset ==> SparesDrawings(job.names))
  {
    hide OneWay, EmbedsItsNames, FreshNames, PairsAgree, SparesDrawings, UsedNames, Lines;
  }
}
