/**
  The `[Fonts]` section: printing embedded fonts as UU lines of 80 characters and reading them back.
  The reader goes line by line and keeps the name and the data of the font it is in; a header or
  another name ends that font, and data that cannot be decoded is dropped with its name. A data line
  may look like a header or a name, and then the section does not come back.
*/
module FontsSection {
  import opened Text
  import opened UuCodec

  // `AssEmbeddedFont`
  datatype Block = Block(name: string, data: seq<byte>)

  const NamePrefix := "fontname: "

  // `chunks(80)`
  function Chunks(s: string): seq<string> {
    if s == "" then [] else if |s| <= 80 then [s] else [s[..80]] + Chunks(s[80..])
  }

  function BlockLines(b: Block): seq<string> {
    [NamePrefix + b.name] + Chunks(Encode(b.data)) + [""]
  }

  function AllBlockLines(blocks: seq<Block>): seq<string> {
    if blocks == [] then [] else BlockLines(blocks[0]) + AllBlockLines(blocks[1..])
  }

  // The lines of the printed section; no section at all without fonts.
  function SectionLines(blocks: seq<Block>): seq<string> {
    if blocks == [] then [] else ["[Fonts]"] + AllBlockLines(blocks)
  }

  // `build_fonts_section_from_blocks`
  method BuildFontsSection(blocks: seq<Block>, newline: string) returns (section: string)
    ensures section == Join(SectionLines(blocks), newline)
  {
    if blocks == [] {
      return "";
    }
    var lines := ["[Fonts]"];
    for i := 0 to |blocks|
      invariant lines + AllBlockLines(blocks[i..]) == SectionLines(blocks)
    {
      assert blocks[i..][1..] == blocks[i + 1..];
      BlockLinesStep(lines, blocks[i..]);
      lines := lines + [NamePrefix + blocks[i].name];
      var enc := AssUuEncode(blocks[i].data);
      lines := lines + Chunks(enc);
      lines := lines + [""];
    }
    assert lines + [] == lines;
    return Join(lines, newline);
  }

  lemma {:induction false} BlockLinesStep(lines: seq<string>, rest: seq<Block>)
    requires rest != []
    ensures lines + AllBlockLines(rest) ==
            lines + [NamePrefix + rest[0].name] + Chunks(Encode(rest[0].data)) + [""] + AllBlockLines(rest[1..])
  {
    var a, b, c, d := [NamePrefix + rest[0].name], Chunks(Encode(rest[0].data)), [""], AllBlockLines(rest[1..]);
    AssocLines(lines, a, b, c, d);
  }

  lemma AssocLines(x: seq<string>, a: seq<string>, b: seq<string>, c: seq<string>, d: seq<string>)
    ensures x + (a + b + c + d) == x + a + b + c + d
  {
  }

  // ----- Reading -----

  // The reader's variables: fonts found, the section, the open font's name and its text so far.
  datatype Reader = Reader(fonts: seq<Block>, section: string, name: Option<string>, data: string)

  const Start := Reader([], "", None, "")

  // `flush_embedded_font`: an open font is kept when its text decodes.
  function Flush(r: Reader): Reader {
    match r.name
    case None => r.(data := "")
    case Some(name) =>
      var fonts := if Decode(r.data).Some? then r.fonts + [Block(name, Decode(r.data).value)] else r.fonts;
      r.(fonts := fonts, name := None, data := "")
  }

  function ReadLine(r: Reader, line: string): Reader {
    var trimmed := Trim(line);
    var header := SectionHeader(trimmed);
    if header.Some? then Flush(r).(section := Lower(header.value))
    else if r.section != "fonts" then r
    else
      var rest := StripPrefixCi(trimmed, "fontname:");
      if rest.Some? then Flush(r).(name := Some(Trim(rest.value)))
      else if trimmed == "" then Flush(r)
      else if r.name.Some? then r.(data := r.data + trimmed)
      else r
  }

  function ReadLines(r: Reader, lines: seq<string>): Reader
    decreases |lines|
  {
    if lines == [] then r else ReadLines(ReadLine(r, lines[0]), lines[1..])
  }

  function FontsIn(lines: seq<string>): seq<Block> {
    Flush(ReadLines(Start, lines)).fonts
  }

  // `parse_embedded_fonts`
  method ParseEmbeddedFonts(text: string) returns (fonts: seq<Block>)
    ensures fonts == FontsIn(Lines(text))
  {
    hide Trim, Lines, Lower, StripPrefixCi, Decode;
    fonts := [];
    var section := "";
    var name: Option<string> := None;
    var data := "";
    var lines := Lines(text);
    var i := 0;
    while i < |lines|
      invariant 0 <= i <= |lines|
      invariant ReadLines(Reader(fonts, section, name, data), lines[i..]) == ReadLines(Start, lines)
    {
      assert lines[i..][1..] == lines[i + 1..];
      var trimmed := Trim(lines[i]);
      var header := SectionHeader(trimmed);
      i := i + 1;
      if header.Some? {
        fonts, name, data := FlushEmbeddedFont(fonts, name, data, section);
        section := Lower(header.value);
        continue;
      }
      if section != "fonts" {
        continue;
      }
      var rest := StripPrefixCi(trimmed, "fontname:");
      if rest.Some? {
        fonts, name, data := FlushEmbeddedFont(fonts, name, data, section);
        name := Some(Trim(rest.value));
        continue;
      }
      if trimmed == "" {
        fonts, name, data := FlushEmbeddedFont(fonts, name, data, section);
      } else if name.Some? {
        data := data + trimmed;
      }
    }
    fonts, name, data := FlushEmbeddedFont(fonts, name, data, section);
  }

  method FlushEmbeddedFont(fonts: seq<Block>, name: Option<string>, data: string, ghost section: string)
    returns (fonts': seq<Block>, name': Option<string>, data': string)
    ensures Reader(fonts', section, name', data') == Flush(Reader(fonts, section, name, data))
  {
    fonts', name', data' := fonts, None, "";
    if name.Some? {
      var decoded := AssUuDecode(data);
      if decoded.Some? {
        fonts' := fonts + [Block(name.value, decoded.value)];
      }
    }
  }

  // ----- The round trip -----

  // A data line the reader takes for something else: a section header or a font name.
  predicate Misread(line: string) {
    SectionHeader(line).Some? || StripPrefixCi(line, "fontname:").Some?
  }

  predicate GoodData(data: seq<byte>) {
    forall i :: 0 <= i < |Chunks(Encode(data))| ==> !Misread(Chunks(Encode(data))[i])
  }

  // A name that survives being on a line of its own.
  predicate GoodName(name: string) {
    Trimmed(name) && '\n' !in name
  }

  predicate GoodBlock(b: Block) {
    GoodName(b.name) && GoodData(b.data)
  }

  predicate GoodBlocks(blocks: seq<Block>) {
    forall i :: 0 <= i < |blocks| ==> GoodBlock(blocks[i])
  }

  predicate DataLine(line: string) {
    line != "" && NoWhitespace(line) && !Misread(line)
  }

  lemma {:induction false} ChunksFacts(s: string)
    requires NoWhitespace(s)
    ensures forall i :: 0 <= i < |Chunks(s)| ==> Chunks(s)[i] != "" && NoWhitespace(Chunks(s)[i])
    ensures Concat(Chunks(s)) == s
    decreases |s|
  {
    if s == "" {
    } else if |s| <= 80 {
      assert Concat([]) == "" && s + "" == s;
      assert [s][1..] == [];
    } else {
      ChunksFacts(s[80..]);
      assert Chunks(s)[1..] == Chunks(s[80..]);
    }
  }

  function Concat(parts: seq<string>): string {
    if parts == [] then "" else parts[0] + Concat(parts[1..])
  }

  lemma ReadDataLine(r: Reader, line: string)
    requires r.section == "fonts" && r.name.Some? && DataLine(line)
    ensures ReadLine(r, line) == r.(data := r.data + line)
  {
    TrimOfTrimmed(line);
  }

  lemma {:induction false} ReadData(r: Reader, lines: seq<string>)
    requires r.section == "fonts" && r.name.Some?
    requires forall i :: 0 <= i < |lines| ==> DataLine(lines[i])
    ensures ReadLines(r, lines) == r.(data := r.data + Concat(lines))
    decreases |lines|
  {
    if lines == [] {
      assert r.data + "" == r.data;
    } else {
      ReadDataLine(r, lines[0]);
      hide ReadLine, DataLine;
      var r' := r.(data := r.data + lines[0]);
      assert forall i :: 0 <= i < |lines[1..]| ==> DataLine(lines[1..][i]) by {
        assert forall i :: 0 <= i < |lines[1..]| ==> lines[1..][i] == lines[i + 1];
      }
      ReadData(r', lines[1..]);
      Assoc(r.data, lines[0], Concat(lines[1..]));
    }
  }

  lemma {:induction false} ReadLinesAppend(r: Reader, a: seq<string>, b: seq<string>)
    ensures ReadLines(r, a + b) == ReadLines(ReadLines(r, a), b)
    decreases |a|
  {
    hide ReadLine;
    if a == [] {
      assert a + b == b;
    } else {
      assert (a + b)[1..] == a[1..] + b;
      ReadLinesAppend(ReadLine(r, a[0]), a[1..], b);
    }
  }

  lemma ReadNameLine(r: Reader, name: string)
    requires r.section == "fonts" && r.name == None && r.data == "" && Trimmed(name)
    ensures ReadLine(r, NamePrefix + name) == r.(name := Some(name))
  {
    var line := NamePrefix + name;
    if name == "" {
      assert line == "" + "fontname:" + " ";
      TrimIs("", "fontname:", " ");
      assert "fontname:"[9..] == "";
      TrimOfTrimmed("");
    } else {
      TrimOfTrimmed(line);
      assert line[..9] == "fontname:" && line[9..] == " " + name + "";
      TrimIs(" ", name, "");
    }
  }

  lemma ReadEmptyLine(r: Reader)
    requires r.section == "fonts"
    ensures ReadLine(r, "") == Flush(r)
  {
    TrimOfTrimmed("");
  }

  lemma {:induction false} ReadOne(r: Reader, line: string)
    ensures ReadLines(r, [line]) == ReadLine(r, line)
  {
    assert ReadLines(ReadLine(r, line), [line][1..]) == ReadLine(r, line);
  }

  // One printed font is read back as itself.
  lemma {:induction false} ReadBlock(r: Reader, b: Block)
    requires r.section == "fonts" && r.name == None && r.data == "" && GoodBlock(b)
    ensures ReadLines(r, BlockLines(b)) == r.(fonts := r.fonts + [b])
  {
    var chunks := Chunks(Encode(b.data));
    EncodedIsDense(b.data);
    ChunksFacts(Encode(b.data));
    DecodeEncode(b.data);
    ReadNameLine(r, b.name);
    hide ReadLine, Encode, Decode, Chunks;
    var named := r.(name := Some(b.name));
    ReadOne(r, NamePrefix + b.name);
    assert forall i :: 0 <= i < |chunks| ==> DataLine(chunks[i]);
    ReadData(named, chunks);
    var full := named.(data := "" + Concat(chunks));
    assert full.data == Concat(chunks);
    ReadEmptyLine(full);
    ReadOne(full, "");
    ReadLinesAppend(r, [NamePrefix + b.name], chunks);
    ReadLinesAppend(r, [NamePrefix + b.name] + chunks, [""]);
  }

  lemma {:induction false} ReadBlocks(r: Reader, blocks: seq<Block>)
    requires r.section == "fonts" && r.name == None && r.data == "" && GoodBlocks(blocks)
    ensures ReadLines(r, AllBlockLines(blocks)) == r.(fonts := r.fonts + blocks)
    decreases |blocks|
  {
    if blocks == [] {
      assert r.fonts + [] == r.fonts;
    } else {
      hide BlockLines, GoodBlock, ReadLines;
      var b, tail := blocks[0], blocks[1..];
      assert blocks == [b] + tail;
      ReadBlock(r, b);
      ReadBlocks(r.(fonts := r.fonts + [b]), tail);
      ReadLinesAppend(r, BlockLines(b), AllBlockLines(tail));
      hide AllBlockLines;
      AssocSeq(r.fonts, [b], tail);
    }
  }

  lemma ReadFontsHeader(r: Reader)
    ensures ReadLine(r, "[Fonts]") == Flush(r).(section := "fonts")
  {
    TrimOfTrimmed("[Fonts]");
    assert "[Fonts]"[1..6] == "Fonts";
    assert Lower("Fonts") == "fonts";
  }

  // The whole section, read from any state outside a font.
  lemma {:induction false} ReadSection(r: Reader, blocks: seq<Block>)
    requires r.name == None && r.data == "" && GoodBlocks(blocks) && blocks != []
    ensures ReadLines(r, SectionLines(blocks)) == Reader(r.fonts + blocks, "fonts", None, "")
  {
    hide GoodBlocks, AllBlockLines, ReadLines;
    ReadFontsHeader(r);
    ReadOne(r, "[Fonts]");
    ReadBlocks(r.(section := "fonts"), blocks);
    ReadLinesAppend(r, ["[Fonts]"], AllBlockLines(blocks));
  }

  lemma BlockLinesClean(b: Block)
    requires GoodName(b.name)
    ensures CleanLines(BlockLines(b))
  {
    EncodedIsDense(b.data);
    ChunksFacts(Encode(b.data));
    hide Encode, Chunks;
    var lines := BlockLines(b);
    forall i | 0 <= i < |lines|
      ensures CleanLine(lines[i])
    {
      if 0 < i < |lines| - 1 {
        assert lines[i] == Chunks(Encode(b.data))[i - 1];
        assert NoWhitespace(lines[i]);
      }
    }
  }

  lemma {:induction false} SectionLinesClean(blocks: seq<Block>)
    requires forall i :: 0 <= i < |blocks| ==> GoodName(blocks[i].name)
    ensures CleanLines(AllBlockLines(blocks))
    ensures blocks != [] ==> |AllBlockLines(blocks)| > 0
    decreases |blocks|
  {
    if blocks != [] {
      BlockLinesClean(blocks[0]);
      SectionLinesClean(blocks[1..]);
    }
  }

  lemma {:induction false} AllBlockLinesEnd(blocks: seq<Block>)
    requires blocks != []
    ensures |AllBlockLines(blocks)| > 0 && AllBlockLines(blocks)[|AllBlockLines(blocks)| - 1] == ""
    decreases |blocks|
  {
    if |blocks| > 1 {
      AllBlockLinesEnd(blocks[1..]);
    }
  }

  lemma CleanLinesCons(line: string, lines: seq<string>)
    requires CleanLine(line) && CleanLines(lines)
    ensures CleanLines([line] + lines)
  {
  }

  // Re-reading the printed section gives its lines, all but the final empty one.
  lemma SectionText(blocks: seq<Block>, newline: string) returns (front: seq<string>)
    requires blocks != [] && IsNewline(newline)
    requires forall i :: 0 <= i < |blocks| ==> GoodName(blocks[i].name)
    ensures SectionLines(blocks) == front + [""]
    ensures Lines(Join(SectionLines(blocks), newline)) == front
  {
    hide AllBlockLines, GoodName, Lines, Join, CleanLines;
    var lines := SectionLines(blocks);
    SectionLinesClean(blocks);
    AllBlockLinesEnd(blocks);
    CleanLinesCons("[Fonts]", AllBlockLines(blocks));
    LinesOfJoined(lines, newline);
    front := lines[..|lines| - 1];
  }

  // The final flush finds what the empty line would have found, and no less.
  lemma {:induction false} FinalFlush(front: seq<string>)
    ensures ReadLines(Start, front + [""]).fonts <= FontsIn(front)
    ensures ReadLines(Start, front + [""]).section == "fonts" ==>
              FontsIn(front) == ReadLines(Start, front + [""]).fonts
  {
    ReadLinesAppend(Start, front, [""]);
    var r := ReadLines(Start, front);
    ReadOne(r, "");
    hide ReadLines, Decode;
    TrimOfTrimmed("");
  }

  // Good fonts are read back as they were printed.
  lemma {:induction false} GoodBlocksComeBack(blocks: seq<Block>, newline: string)
    requires GoodBlocks(blocks) && IsNewline(newline)
    ensures FontsIn(Lines(Join(SectionLines(blocks), newline))) == blocks
  {
    if blocks == [] {
      assert Lines("") == [];
    } else {
      hide Lines, ReadLines, Join, FontsIn, GoodData, GoodName, SectionLines;
      var front := SectionText(blocks, newline);
      FinalFlush(front);
      ReadSection(Start, blocks);
      assert [] + blocks == blocks;
    }
  }

  // ----- The converse -----

  lemma {:induction false} DecodeWholeGroups(vs: seq<sextet>)
    requires |vs| % 4 == 0
    ensures DecodeValues(vs).Some? && |DecodeValues(vs).value| == |vs| / 4 * 3
    decreases |vs|
  {
    if vs != [] {
      DecodeWholeGroups(vs[4..]);
    }
  }

  lemma {:induction false} ValuesInRange(s: string)
    requires forall i :: 0 <= i < |s| ==> 33 <= s[i] as int <= 96
    ensures Values(s).Some? && |Values(s).value| == |s|
  {
    if s != "" {
      assert 33 <= s[0] as int <= 96;
      ValuesInRange(s[1..]);
    }
  }

  // All chunks but the last are full, so a prefix of them is a whole number of groups.
  lemma {:induction false} ChunksPrefix(s: string, j: nat)
    requires j < |Chunks(s)|
    ensures 80 * j < |s| && Concat(Chunks(s)[..j]) == s[..80 * j]
    decreases j
  {
    if j > 0 {
      ChunksPrefix(s[80..], j - 1);
      assert Chunks(s)[..j] == [s[..80]] + Chunks(s[80..])[..j - 1];
      assert Concat(Chunks(s)[..j]) == s[..80] + Concat(Chunks(s[80..])[..j - 1]);
      assert s[..80 * j] == s[..80] + s[80..][..80 * (j - 1)];
    }
  }

  // Fonts already found are never changed.
  lemma {:induction false} FontsOnlyGrow(r: Reader, lines: seq<string>)
    ensures r.fonts <= ReadLines(r, lines).fonts
    decreases |lines|
  {
    hide Trim, Decode, Lower, StripPrefixCi, SectionHeader;
    if lines != [] {
      FontsOnlyGrow(ReadLine(r, lines[0]), lines[1..]);
    }
  }

  lemma ReadMisread(r: Reader, line: string)
    requires r.section == "fonts" && r.name.Some? && Decode(r.data).Some?
    requires line != "" && NoWhitespace(line) && Misread(line)
    ensures ReadLine(r, line).fonts == r.fonts + [Block(r.name.value, Decode(r.data).value)]
  {
    TrimOfTrimmed(line);
  }

  lemma WholeGroups(s: string, n: nat)
    requires forall i :: 0 <= i < |s| ==> 33 <= s[i] as int <= 96
    requires |s| == 4 * n
    ensures Decode(s).Some? && |Decode(s).value| == 3 * n
  {
    ValuesInRange(s);
    DecodeWholeGroups(Values(s).value);
  }

  // The text before a misread line decodes to fewer bytes than the font has.
  lemma {:induction false} CutText(data: seq<byte>, j: nat)
    requires j < |Chunks(Encode(data))|
    ensures Decode(Concat(Chunks(Encode(data))[..j])).Some?
    ensures |Decode(Concat(Chunks(Encode(data))[..j])).value| < |data|
  {
    var s := Encode(data);
    EncodeShape(data);
    ChunksPrefix(s, j);
    hide Encode, Chunks, Concat, Decode;
    WholeGroups(s[..80 * j], 20 * j);
  }

  // A misread line closes its font early, with only the whole lines before it.
  lemma BadDataIsCut(r: Reader, data: seq<byte>, rest: seq<string>) returns (cut: Block)
    requires r.section == "fonts" && r.name.Some? && r.data == "" && !GoodData(data)
    ensures |cut.data| < |data| && r.fonts + [cut] <= ReadLines(r, Chunks(Encode(data)) + rest).fonts
  {
    var chunks := Chunks(Encode(data));
    EncodedIsDense(data);
    ChunksFacts(Encode(data));
    var j := FirstMisread(chunks);
    CutText(data, j);
    hide Encode, Decode, Chunks, GoodData;
    cut := MisreadCuts(r, chunks, j, rest);
  }

  lemma MisreadCuts(r: Reader, chunks: seq<string>, j: nat, rest: seq<string>) returns (cut: Block)
    requires r.section == "fonts" && r.name.Some? && r.data == "" && j < |chunks|
    requires forall i :: 0 <= i <= j ==> chunks[i] != "" && NoWhitespace(chunks[i])
    requires Misread(chunks[j]) && forall i :: 0 <= i < j ==> !Misread(chunks[i])
    requires Decode(Concat(chunks[..j])).Some?
    ensures cut.data == Decode(Concat(chunks[..j])).value
    ensures r.fonts + [cut] <= ReadLines(r, chunks + rest).fonts
  {
    hide Decode, ReadLines, ReadLine, Misread, NoWhitespace, Concat;
    var before, tail := chunks[..j], chunks[j + 1..] + rest;
    ReadData(r, before);
    var r1 := r.(data := "" + Concat(before));
    assert r1.data == Concat(before);
    ReadMisread(r1, chunks[j]);
    cut := Block(r.name.value, Decode(Concat(before)).value);
    ReadAround(r, before, chunks[j], tail);
    assert chunks == before + [chunks[j]] + chunks[j + 1..];
    AssocSeq(before + [chunks[j]], chunks[j + 1..], rest);
  }

  lemma {:induction false} ReadAround(r: Reader, before: seq<string>, line: string, after: seq<string>)
    ensures ReadLine(ReadLines(r, before), line).fonts <= ReadLines(r, before + [line] + after).fonts
  {
    hide ReadLine;
    ReadLinesAppend(r, before, [line]);
    ReadLinesAppend(r, before + [line], after);
    ReadOne(ReadLines(r, before), line);
    hide ReadLines;
    FontsOnlyGrow(ReadLine(ReadLines(r, before), line), after);
  }

  lemma {:induction false} FirstMisread(chunks: seq<string>) returns (j: nat)
    requires exists i :: 0 <= i < |chunks| && Misread(chunks[i])
    ensures j < |chunks| && Misread(chunks[j]) && forall i :: 0 <= i < j ==> !Misread(chunks[i])
  {
    hide Misread;
    j := 0;
    while !Misread(chunks[j])
      invariant j < |chunks| && forall i :: 0 <= i < j ==> !Misread(chunks[i])
      decreases |chunks| - j
    {
      var i :| 0 <= i < |chunks| && Misread(chunks[i]);
      j := j + 1;
    }
  }

  // The first font with bad data is found, but cut.
  lemma BadBlockIsCut(r: Reader, b: Block, more: seq<string>) returns (cut: Block)
    requires r.section == "fonts" && r.name == None && r.data == ""
    requires GoodName(b.name) && !GoodData(b.data)
    ensures cut != b && r.fonts + [cut] <= ReadLines(r, BlockLines(b) + more).fonts
  {
    hide GoodData, ReadLine, ReadLines, Chunks, Encode;
    ReadNameLine(r, b.name);
    ReadOne(r, NamePrefix + b.name);
    var chunks, tail := Chunks(Encode(b.data)), [""] + more;
    cut := BadDataIsCut(r.(name := Some(b.name)), b.data, tail);
    AssocSeq([NamePrefix + b.name], chunks, [""]);
    AssocSeq([NamePrefix + b.name], chunks + [""], more);
    AssocSeq(chunks, [""], more);
    ReadLinesAppend(r, [NamePrefix + b.name], chunks + tail);
  }

  // Two lists of fonts that disagree at an index both have.
  predicate Differ(a: seq<Block>, b: seq<Block>) {
    exists i :: 0 <= i < |a| && i < |b| && a[i] != b[i]
  }

  lemma {:induction false} BadBlocksDiffer(r: Reader, blocks: seq<Block>, rest: seq<string>)
    requires r.section == "fonts" && r.name == None && r.data == ""
    requires forall i :: 0 <= i < |blocks| ==> GoodName(blocks[i].name)
    requires exists i :: 0 <= i < |blocks| && !GoodData(blocks[i].data)
    ensures Differ(r.fonts + blocks, ReadLines(r, AllBlockLines(blocks) + rest).fonts)
    decreases |blocks|
  {
    hide GoodData, GoodName, ReadLine, ReadLines, BlockLines;
    var b, tail := blocks[0], blocks[1..];
    var more := AllBlockLines(tail) + rest;
    AssocSeq(BlockLines(b), AllBlockLines(tail), rest);
    assert AllBlockLines(blocks) + rest == BlockLines(b) + more;
    hide AllBlockLines;
    if GoodData(b.data) {
      ReadBlock(r, b);
      ReadLinesAppend(r, BlockLines(b), more);
      var i :| 0 <= i < |blocks| && !GoodData(blocks[i].data);
      assert tail[i - 1] == blocks[i];
      BadBlocksDiffer(r.(fonts := r.fonts + [b]), tail, rest);
      AssocSeq(r.fonts, [b], tail);
      assert [b] + tail == blocks;
    } else {
      var cut := BadBlockIsCut(r, b, more);
      var n := |r.fonts|;
      assert (r.fonts + blocks)[n] == b && (r.fonts + [cut])[n] == cut;
    }
  }

  predicate NamesGood(r: Reader) {
    && (forall i :: 0 <= i < |r.fonts| ==> GoodName(r.fonts[i].name))
    && (r.name.Some? ==> GoodName(r.name.value))
  }

  lemma TrimmedPartIsGood(s: string)
    requires '\n' !in s
    ensures GoodName(Trim(s))
  {
    var a, b := TrimSplits(s);
    assert forall c :: c in Trim(s) ==> c in a + Trim(s) + b;
  }

  lemma {:induction false} ReadNamesGood(r: Reader, lines: seq<string>)
    requires NamesGood(r) && CleanLines(lines)
    ensures NamesGood(ReadLines(r, lines))
    decreases |lines|
  {
    hide Trim, Decode, Lower, SectionHeader, GoodName;
    if lines != [] {
      assert CleanLine(lines[0]);
      var a, b := TrimSplits(lines[0]);
      var trimmed := Trim(lines[0]);
      assert forall c :: c in trimmed ==> c in a + trimmed + b;
      var rest := StripPrefixCi(trimmed, "fontname:");
      if rest.Some? {
        assert '\n' !in trimmed;
        assert forall c :: c in rest.value ==> c in trimmed;
        TrimmedPartIsGood(rest.value);
      }
      hide StripPrefixCi, CleanLine;
      ReadNamesGood(ReadLine(r, lines[0]), lines[1..]);
    }
  }

  lemma {:induction false} FoundNamesAreGood(text: string)
    ensures forall i :: 0 <= i < |FontsIn(Lines(text))| ==> GoodName(FontsIn(Lines(text))[i].name)
  {
    LinesAreClean(text);
    hide Lines, ReadLines, Decode;
    ReadNamesGood(Start, Lines(text));
  }

  /**
    Printing fonts and parsing the section gives the same names and bytes, in order, exactly when
    every name is trimmed and on one line and no data line reads as a header or a font name.
  */
  lemma {:induction false} FontsRoundTrip(blocks: seq<Block>, newline: string)
    requires IsNewline(newline)
    ensures FontsIn(Lines(Join(SectionLines(blocks), newline))) == blocks <==> GoodBlocks(blocks)
  {
    var text := Join(SectionLines(blocks), newline);
    hide Lines, Join, GoodData, Flush, GoodName, ReadLine, AllBlockLines, BlockLines;
    if GoodBlocks(blocks) {
      GoodBlocksComeBack(blocks, newline);
    } else if FontsIn(Lines(text)) == blocks {
      FoundNamesAreGood(text);
      assert forall i :: 0 <= i < |blocks| ==> GoodName(blocks[i].name);
      BadSectionDiffers(blocks, newline);
    }
  }

  lemma {:induction false} BadSectionDiffers(blocks: seq<Block>, newline: string)
    requires IsNewline(newline) && !GoodBlocks(blocks)
    requires forall i :: 0 <= i < |blocks| ==> GoodName(blocks[i].name)
    ensures FontsIn(Lines(Join(SectionLines(blocks), newline))) != blocks
  {
    ReadFontsHeader(Start);
    ReadOne(Start, "[Fonts]");
    ReadLinesAppend(Start, ["[Fonts]"], AllBlockLines(blocks));
    hide Lines, Join, GoodData, GoodName, ReadLine, ReadLines, AllBlockLines, FontsIn;
    assert blocks != [];
    var front := SectionText(blocks, newline);
    FinalFlush(front);
    assert Flush(Start) == Start;
    var r := Start.(section := "fonts");
    BadBlocksDiffer(r, blocks, []);
    assert AllBlockLines(blocks) + [] == AllBlockLines(blocks) && r.fonts + blocks == blocks;
  }
}
