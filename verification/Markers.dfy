/**
  What the subset pass leaves for the strip job to find: its comments and its font section.
*/
module Markers {
  import opened Text
  import opened FontNames
  import opened FontsSection
  import opened Document
  import opened LineFacts
  import opened RoundTrip

  // A name that survives a mapping comment as the original of a font.
  predicate GoodOriginal(name: string) {
    name != "" && Trimmed(name) && '\n' !in name
  }

  // ----- Comments -----

  lemma {:induction false} FindDashAfter(name: string, rest: string)
    requires forall c :: c in name ==> !IsWhitespace(c)
    ensures FindDash(name + (Dash + rest)) == |name|
  {
    var s := name + (Dash + rest);
    if name == "" {
      assert s == Dash + rest && s[..3] == Dash;
    } else {
      assert name[0] in name;
      assert s[0] == name[0] && s[1..] == name[1..] + (Dash + rest);
      if |s| >= 3 {
        assert s[..3][0] == name[0] && Dash[0] == ' ';
      }
      FindDashAfter(name[1..], rest);
    }
  }

  lemma CommentRest(embedded: string, original: string)
    requires CleanName(embedded) && GoodOriginal(original)
    ensures var line, pair := Comment(embedded, original), embedded + (Dash + original);
            Trim(line) == line && StripPrefixCi(line, CommentPrefix) == Some(" " + pair)
            && Trim(" " + pair) == pair
  {
    var line, pair := Comment(embedded, original), embedded + (Dash + original);
    NormFontOfClean(embedded);
    assert line == CommentPrefix + (" " + pair);
    assert Trimmed(line) && Trimmed(pair);
    TrimOfTrimmed(line);
    assert line[..14] == CommentPrefix && line[14..] == " " + pair;
    assert " " + pair + "" == " " + pair;
    TrimIs(" ", pair, "");
  }

  lemma CommentPair(embedded: string, original: string)
    requires CleanName(embedded)
    ensures var pair := embedded + (Dash + original);
            FindDash(pair) == |embedded| && |embedded| < |pair|
            && pair[..|embedded|] == embedded && pair[|embedded| + 3..] == original
  {
    FindDashAfter(embedded, original);
  }

  /** A printed comment is read back as the pair it was printed from. */
  lemma ParsePrinted(embedded: string, original: string)
    requires CleanName(embedded) && GoodOriginal(original)
    ensures ParseComment(Comment(embedded, original)) == Some((embedded, original))
  {
    CommentRest(embedded, original);
    CommentPair(embedded, original);
    hide Trim, FindDash, Comment, StripPrefixCi;
  }

  lemma CommentKind(embedded: string, original: string)
    requires CleanName(embedded) && GoodOriginal(original)
    ensures var line := Comment(embedded, original);
            Header(line) == None && CleanLine(line) && line != ""
  {
    var line := Comment(embedded, original);
    TrimOfTrimmed(line);
    assert line[0] == ';';
    assert '\n' !in line;
  }

  // Fonts whose names the comments can carry.
  predicate GoodFonts(fonts: seq<Font>) {
    forall i :: 0 <= i < |fonts| && fonts[i].original != fonts[i].embedded ==>
      CleanName(fonts[i].embedded) && GoodOriginal(fonts[i].original)
  }

  // The original of each renamed embedded font: the first font of an embedded name decides.
  function Originals(fonts: seq<Font>, found: Renaming): Renaming {
    if fonts == [] then found
    else
      var f := fonts[0];
      var key := LookupName(f.embedded);
      if f.original == f.embedded || key in found then Originals(fonts[1..], found)
      else Originals(fonts[1..], found[key := f.original])
  }

  lemma AddPrinted(found: Renaming, embedded: string, original: string)
    requires CleanName(embedded) && GoodOriginal(original)
    ensures AddComment(found, Comment(embedded, original)) == found[LookupName(embedded) := original]
  {
    ParsePrinted(embedded, original);
    NormFontOfClean(embedded);
    hide ParseComment, Trim, LookupName, Comment;
    TrimOfTrimmed(embedded);
    TrimOfTrimmed(original);
  }

  /** Reading the comments of a font list gives the original of every renamed font. */
  lemma {:induction false} CommentsRead(fonts: seq<Font>, found: Renaming)
    requires GoodFonts(fonts)
    ensures CommentMap(found, FontComments(fonts, found.Keys)) == Originals(fonts, found)
    decreases |fonts|
  {
    hide AddComment, LookupName, Comment;
    if fonts != [] {
      var f, key := fonts[0], LookupName(fonts[0].embedded);
      if f.original != f.embedded && key !in found {
        var line := Comment(f.embedded, f.original);
        AddPrinted(found, f.embedded, f.original);
        var rest := FontComments(fonts[1..], found.Keys + {key});
        assert ([line] + rest)[1..] == rest;
        assert found[key := f.original].Keys == found.Keys + {key};
        CommentsRead(fonts[1..], found[key := f.original]);
      } else {
        CommentsRead(fonts[1..], found);
      }
    }
  }

  lemma {:induction false} OriginalsGrow(fonts: seq<Font>, found: Renaming)
    ensures found.Keys <= Originals(fonts, found).Keys
    decreases |fonts|
  {
    hide LookupName;
    if fonts != [] {
      var f, key := fonts[0], LookupName(fonts[0].embedded);
      if f.original != f.embedded && key !in found {
        OriginalsGrow(fonts[1..], found[key := f.original]);
      } else {
        OriginalsGrow(fonts[1..], found);
      }
    }
  }

  // ----- The font section -----

  lemma DataLineIsPlain(line: string)
    requires DataLine(line)
    ensures Header(line) == None
  {
    TrimOfTrimmed(line);
  }

  lemma BlockLinesPlain(b: Block)
    requires GoodBlock(b)
    ensures forall i :: 0 <= i < |BlockLines(b)| ==> Header(BlockLines(b)[i]) == None
  {
    var lines, chunks := BlockLines(b), Chunks(UuCodec.Encode(b.data));
    UuCodec.EncodedIsDense(b.data);
    ChunksFacts(UuCodec.Encode(b.data));
    hide Chunks;
    NameLineIsPlain(b.name);
    assert Header("") == None by { TrimOfTrimmed(""); }
    forall i | 0 <= i < |lines|
      ensures Header(lines[i]) == None
    {
      if 0 < i < |lines| - 1 {
        assert lines[i] == chunks[i - 1];
        DataLineIsPlain(lines[i]);
      }
    }
  }

  lemma NameLineIsPlain(name: string)
    ensures Header(NamePrefix + name) == None
  {
    assert NamePrefix + name == "" + ("fontname:" + (" " + name));
    TrimKeepsStart("", "fontname:", " " + name);
  }

  lemma {:induction false} AllBlockLinesPlain(blocks: seq<Block>)
    requires GoodBlocks(blocks)
    ensures forall i :: 0 <= i < |AllBlockLines(blocks)| ==> Header(AllBlockLines(blocks)[i]) == None
    decreases |blocks|
  {
    if blocks != [] {
      BlockLinesPlain(blocks[0]);
      hide BlockLines, Header, GoodBlock;
      AllBlockLinesPlain(blocks[1..]);
    }
  }

  /** The printed section is skipped as a whole when no data line looks like a header. */
  lemma SectionSkipped(blocks: seq<Block>)
    requires GoodBlocks(blocks)
    ensures SkippedWhole(SectionLines(blocks)) && CleanLines(SectionLines(blocks))
  {
    AllBlockLinesPlain(blocks);
    SectionLinesClean(blocks);
    FontsHeader();
    hide AllBlockLines, Header, GoodBlocks, CleanLine;
  }

  lemma FontsHeader()
    ensures Header("[Fonts]") == Some("fonts") && CleanLine("[Fonts]")
  {
    TrimOfTrimmed("[Fonts]");
    hide Trim;
    assert "[Fonts]"[1..6] == "Fonts";
    assert Lower("Fonts") == "fonts";
  }

  lemma NameLineIsNoComment(name: string)
    ensures !IsComment(NamePrefix + name)
  {
    assert NamePrefix + name == "" + ("fontname:" + (" " + name));
    TrimKeepsStart("", "fontname:", " " + name);
    var t := Trim(NamePrefix + name);
    hide Trim;
    assert t[..9][0] == 'f';
    PrefixOf(t, CommentPrefix);
    if |t| >= 14 {
      assert Lower(t[..14])[0] == 'f';
      assert Lower(CommentPrefix)[0] == ';';
    }
  }

  lemma DenseIsNoComment(line: string)
    requires UuCodec.NoWhitespace(line)
    ensures !IsComment(line)
  {
    TrimOfTrimmed(line);
    PrefixOf(line, CommentPrefix);
    if |line| >= 14 {
      assert Lower(line[..14])[1] == LowerChar(line[1]) && Lower(CommentPrefix)[1] == ' ';
      assert !IsWhitespace(line[1]);
    }
  }

  lemma BlockLinesNoComment(b: Block)
    ensures forall i :: 0 <= i < |BlockLines(b)| ==> !IsComment(BlockLines(b)[i])
  {
    var lines, chunks := BlockLines(b), Chunks(UuCodec.Encode(b.data));
    UuCodec.EncodedIsDense(b.data);
    ChunksFacts(UuCodec.Encode(b.data));
    hide Chunks, UuCodec.NoWhitespace;
    NameLineIsNoComment(b.name);
    DenseIsNoComment("") by { EmptyIsDense(); }
    forall i | 0 <= i < |lines|
      ensures !IsComment(lines[i])
    {
      if 0 < i < |lines| - 1 {
        assert lines[i] == chunks[i - 1];
        DenseIsNoComment(lines[i]);
      }
    }
  }

  lemma EmptyIsDense()
    ensures UuCodec.NoWhitespace("")
  {
  }

  lemma {:induction false} SectionNoComment(blocks: seq<Block>)
    ensures forall i :: 0 <= i < |SectionLines(blocks)| ==> !IsComment(SectionLines(blocks)[i])
  {
    hide BlockLines, IsComment;
    AllBlockLinesNoComment(blocks);
    assert !IsComment("[Fonts]") by { EmptyIsDense(); DenseIsNoComment("[Fonts]"); }
  }

  lemma {:induction false} AllBlockLinesNoComment(blocks: seq<Block>)
    ensures forall i :: 0 <= i < |AllBlockLines(blocks)| ==> !IsComment(AllBlockLines(blocks)[i])
    decreases |blocks|
  {
    hide IsComment, BlockLines;
    if blocks != [] {
      BlockLinesNoComment(blocks[0]);
      AllBlockLinesNoComment(blocks[1..]);
    }
  }
}
