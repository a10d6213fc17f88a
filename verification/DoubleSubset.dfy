/**
  A file the subset job wrote with at least one embedded font is never taken for an original: the
  check in front of every subset job rejects it, whatever the text and the byte order mark.
*/
module DoubleSubset {
  import opened Text
  import opened FontNames
  import opened FontsSection
  import opened Document
  import opened Encoding
  import UuCodec

  const FontsLine := "[Fonts]"

  predicate IsFontsLine(line: string) {
    Lower(Trim(line)) == "[fonts]"
  }

  // `ensure_original_subtitle`
  predicate Original(text: string) {
    var lines := Lines(text);
    && (forall i :: 0 <= i < |lines| ==> !IsFontsLine(lines[i]))
    && CommentMap(map[], lines) == map[]
    && !Contains(Lower(text), "assdrawsubset")
  }

  // What a subset job accepts: bytes that decode to an original.
  predicate Accepted(bytes: seq<UuCodec.byte>) {
    DecodeSubtitle(bytes).Some? && Original(DecodeSubtitle(bytes).value.0)
  }

  // ----- The font section in the text -----

  // A line of its own: before it nothing or a newline, after it nothing or a newline.
  predicate OwnLine(pre: string, post: string) {
    && (pre == "" || pre[|pre| - 1] == '\n')
    && (post == "" || post[0] == '\n' || (|post| >= 2 && post[0] == '\r' && post[1] == '\n'))
  }

  lemma {:induction false} OwnLineIsRead(pre: string, line: string, post: string)
    requires CleanLine(line) && line != "" && OwnLine(pre, post)
    ensures line in Lines(pre + line + post)
    decreases |pre|
  {
    if pre == "" {
      assert pre + line + post == line + post;
      if post == "" {
        LinesOfOne(line);
        assert line + post == line;
      } else {
        var nl := if post[0] == '\n' then "\n" else "\r\n";
        var rest := post[|nl|..];
        assert post == nl + rest;
        Assoc(line, nl, rest);
        LinesStep(line, nl, rest);
      }
    } else {
      FirstLineOff(pre, line + post);
      Assoc(pre, line, post);
      var k := FindChar(pre, '\n');
      var rest := pre[k + 1..];
      hide Lines, CleanLine;
      Assoc(rest, line, post);
      OwnLineIsRead(rest, line, post);
    }
  }

  lemma FirstLineOff(pre: string, rest: string)
    requires pre != "" && pre[|pre| - 1] == '\n'
    ensures var k := FindChar(pre, '\n');
            && k < |pre| && (pre[k + 1..] == "" || pre[k + 1..][|pre[k + 1..]| - 1] == '\n')
            && Lines(pre + rest) == [StripCr(pre[..k])] + Lines(pre[k + 1..] + rest)
  {
    Present(pre, '\n');
    var k := FindChar(pre, '\n');
    FindCharFirst(pre, '\n');
    var text, after := pre + rest, pre[k + 1..] + rest;
    assert text == pre[..k] + ("\n" + after);
    FindCharIs(pre[..k], '\n', "\n" + after);
    assert text[..k] == pre[..k] && text[k + 1..] == after;
  }

  lemma {:induction false} Present(s: string, c: char)
    requires c in s
    ensures FindChar(s, c) < |s|
  {
    FindCharFirst(s, c);
    assert s[..|s|] == s;
  }

  ghost predicate HasFontsLine(text: string) {
    exists pre, post :: OwnLine(pre, post) && text == pre + FontsLine + post
  }

  lemma FontsLineIsOne()
    ensures CleanLine(FontsLine) && IsFontsLine(FontsLine)
  {
    TrimOfTrimmed(FontsLine);
    assert Lower(FontsLine) == "[fonts]";
  }

  lemma NotOriginal(text: string)
    requires HasFontsLine(text)
    ensures !Original(text)
  {
    var pre, post :| OwnLine(pre, post) && text == pre + FontsLine + post;
    FontsLineIsOne();
    OwnLineIsRead(pre, FontsLine, post);
    var i :| 0 <= i < |Lines(text)| && Lines(text)[i] == FontsLine;
    assert IsFontsLine(Lines(text)[i]);
  }

  // A byte order mark taken off the front takes no line away.
  lemma WithoutMark(text: string)
    requires HasFontsLine(text) && StartsWithMark(text)
    ensures HasFontsLine(text[1..])
  {
    var pre, post :| OwnLine(pre, post) && text == pre + FontsLine + post;
    assert text[0] != '[';
    assert pre != "" && pre[0] == text[0];
    assert text[1..] == pre[1..] + FontsLine + post;
    assert |pre| > 1;
    assert OwnLine(pre[1..], post);
  }

  // ----- Every result has the section -----

  lemma {:induction false} Inserted(st: Pass, lines: seq<string>, env: SubsetEnv)
    requires env.fontLines != []
    ensures var (out, end) := SubsetLines(st, lines, env);
            end.inserted && !st.inserted ==> env.fontLines[0] in out
    decreases |lines|
  {
    if lines != [] {
      var (out, next) := SubsetLine(st, lines[0], env);
      assert next.inserted && !st.inserted ==> env.fontLines[0] in out by {
        hide Header, IsComment, RewriteFnTags, RewriteStyleLine, InStyles, Trim, StripPrefixCi, FormatFields;
      }
      hide SubsetLine;
      Inserted(next, lines[1..], env);
    }
  }

  lemma ResultHasSection(lines: seq<string>, env: SubsetEnv)
    requires env.fontLines != []
    ensures env.fontLines[0] in SubsetResult(lines, env)
  {
    Inserted(FirstPass, lines, env);
    hide SubsetLines;
  }

  lemma {:induction false} JoinAround(lines: seq<string>, i: nat, nl: string) returns (pre: string, post: string)
    requires i < |lines| && IsNewline(nl)
    ensures Join(lines, nl) == pre + lines[i] + post && OwnLine(pre, post)
    ensures post == "" || nl <= post
    decreases |lines|
  {
    if |lines| == 1 {
      pre, post := "", "";
    } else if i == 0 {
      pre, post := "", nl + Join(lines[1..], nl);
    } else {
      pre, post := JoinAround(lines[1..], i - 1, nl);
      hide Join;
      assert lines[0] + nl + (pre + lines[i] + post) == (lines[0] + nl + pre) + lines[i] + post;
      pre := lines[0] + nl + pre;
    }
  }

  lemma WrittenHasSection(text: string, nl: string, env: SubsetEnv)
    requires IsNewline(nl) && env.fontLines != [] && env.fontLines[0] == FontsLine
    ensures HasFontsLine(SubsetText(text, nl, env))
  {
    var lines := SubsetResult(Lines(text), env);
    ResultHasSection(Lines(text), env);
    var i :| 0 <= i < |lines| && lines[i] == FontsLine;
    var pre, post := JoinAround(lines, i, nl);
    var final := if EndsWithNewline(text) then nl else "";
    var written := SubsetText(text, nl, env);
    hide SubsetResult, Join, EndsWithNewline, Lines, HasFontsLine, OwnLine;
    assert written == Join(lines, nl) + final;
    assert written == pre + FontsLine + (post + final);
    assert OwnLine(pre, post + final);
  }

  /**
    No double subsetting: what a subset job writes with at least one embedded font decodes, and
    the check in front of the next subset job rejects it.
  */
  lemma SubsetIsRejected(text: string, nl: string, env: SubsetEnv, blocks: seq<Block>, bom: BomKind)
    requires IsNewline(nl) && blocks != [] && env.fontLines == SectionLines(blocks)
    ensures var bytes := EncodeSubtitle(SubsetText(text, nl, env), bom);
            DecodeSubtitle(bytes).Some? && !Accepted(bytes)
  {
    var written := SubsetText(text, nl, env);
    WrittenHasSection(text, nl, env);
    hide SubsetText, Original, DecodeSubtitle, EncodeSubtitle, HasFontsLine;
    DecodeEncoded(written, bom);
    if bom == NoBom && StartsWithMark(written) {
      MarkTakenOff(written);
      WithoutMark(written);
      NotOriginal(written[1..]);
    } else {
      NotOriginal(written);
    }
  }

  // Text without a mark of its own kind, starting with one, is decoded without it.
  lemma MarkTakenOff(text: string)
    requires StartsWithMark(text)
    ensures DecodeSubtitle(EncodeSubtitle(text, NoBom)) == Some((text[1..], Utf8))
  {
    Utf8Front(text);
    var x: int := text[0] as int;
    assert x == 0xFEFF;
    assert Utf8Char(0xFEFF) == Mark8;
    var b := EncodeSubtitle(text, NoBom);
    assert b == Mark8 + EncodeUtf8(text[1..]);
    assert b[3..] == EncodeUtf8(text[1..]);
    Utf8Decodes(text[1..]);
  }

  // ----- What is accepted -----

  // The line names a subset font and its original.
  predicate NamesPair(line: string) {
    ParseComment(line).Some? && Trim(ParseComment(line).value.0) != "" && Trim(ParseComment(line).value.1) != ""
  }

  lemma {:induction false} NoPairsRead(found: Renaming, lines: seq<string>)
    ensures found.Keys <= CommentMap(found, lines).Keys
    ensures CommentMap(found, lines) == found || exists i :: 0 <= i < |lines| && NamesPair(lines[i])
    ensures (exists i :: 0 <= i < |lines| && NamesPair(lines[i])) ==> CommentMap(found, lines) != map[]
    decreases |lines|
  {
    hide ParseComment, LookupName, Trim;
    if lines != [] {
      var next := AddComment(found, lines[0]);
      NoPairsRead(next, lines[1..]);
      if NamesPair(lines[0]) {
        assert LookupName(Trim(ParseComment(lines[0]).value.0)) in next.Keys;
      } else {
        assert next == found;
      }
      if exists i :: 0 <= i < |lines[1..]| && NamesPair(lines[1..][i]) {
        var i :| 0 <= i < |lines[1..]| && NamesPair(lines[1..][i]);
        assert lines[i + 1] == lines[1..][i];
      }
      if exists i :: 0 <= i < |lines| && NamesPair(lines[i]) {
        var i :| 0 <= i < |lines| && NamesPair(lines[i]);
        assert i > 0 ==> lines[1..][i - 1] == lines[i];
      }
    }
  }

  lemma {:induction false} NoPairs(lines: seq<string>)
    ensures CommentMap(map[], lines) == map[] <==> forall i :: 0 <= i < |lines| ==> !NamesPair(lines[i])
  {
    NoPairsRead(map[], lines);
    hide CommentMap, NamesPair;
  }

  lemma {:induction false} AcceptedParts(text: string, lines: seq<string>)
    requires lines == Lines(text)
    ensures Original(text) <==>
              && (forall i :: 0 <= i < |lines| ==> !IsFontsLine(lines[i]))
              && CommentMap(map[], lines) == map[] && !Contains(Lower(text), "assdrawsubset")
  {
    hide Lines, IsFontsLine, CommentMap, Contains, Lower;
  }

  /**
    A text is taken for an original exactly when none of its lines is the section header `[Fonts]`,
    none is a mapping comment with two names, and the drawing font is not named in it.
  */
  lemma {:induction false} OriginalExactly(text: string)
    ensures var lines := Lines(text);
            Original(text) <==>
              && (forall i :: 0 <= i < |lines| ==> !IsFontsLine(lines[i]) && !NamesPair(lines[i]))
              && !Contains(Lower(text), "assdrawsubset")
  {
    var lines := Lines(text);
    NoPairs(lines);
    AcceptedParts(text, lines);
    hide Original, Lines, IsFontsLine, NamesPair, Contains, CommentMap;
  }
}
