/**
  The written forms: what the codec, the font section and the comments look like to a reader.
*/
module Forms {
  import opened Text
  import opened FontNames
  import opened UuCodec
  import opened FontsSection
  import opened Document

  // ----- Names and headers -----

  predicate AllAts(s: string) {
    forall i :: 0 <= i < |s| ==> s[i] == '@'
  }

  lemma {:induction false} AtsGo(ats: string, s: string)
    requires AllAts(ats) && (s == "" || s[0] != '@')
    ensures TrimAts(ats + s) == s
  {
    if ats == "" {
      assert ats + s == s;
    } else {
      assert (ats + s)[1..] == ats[1..] + s && (ats + s)[0] == '@';
      AtsGo(ats[1..], s);
    }
  }

  /**
    A font name is read without blanks around it and without the marks of vertical writing in front
    of it, and is looked up in lower case.
  */
  lemma {:induction false} NameRead(a: string, ats: string, b: string, name: string, c: string)
    requires Blank(a) && AllAts(ats) && Blank(b) && Blank(c) && Trimmed(name) && name != ""
    requires ats == "" ==> b == ""
    requires b == "" ==> name[0] != '@'
    ensures NormFont(a + (ats + b + name) + c) == name && LookupName(a + (ats + b + name) + c) == Lower(name)
  {
    var inner := ats + b + name;
    assert inner == ats + (b + name) && b + name + "" == b + name;
    assert inner[|inner| - 1] == name[|name| - 1];
    assert inner[0] == if ats == "" then name[0] else '@';
    TrimIs(a, inner, c);
    assert b != "" ==> (b + name)[0] == b[0] && b[0] != '@';
    AtsGo(ats, b + name);
    TrimIs(b, name, "");
    hide Trim, TrimAts;
  }

  /** A section header is a line in brackets, blanks around it aside; its name is read in lower case. */
  lemma HeaderRead(line: string, h: string)
    ensures Header(line) == Some(h) <==>
              exists name :: Trim(line) == "[" + name + "]" && h == Lower(name)
  {
    var t := Trim(line);
    hide Trim;
    if Header(line).Some? {
      assert t == "[" + t[1..|t| - 1] + "]";
    }
    forall name | t == "[" + name + "]"
      ensures Header(line) == Some(Lower(name))
    {
      assert t[1..|t| - 1] == name;
    }
  }

  // ----- UU groups -----

  // The digit a character stands for.
  function Digit(c: char): int {
    c as int - 33
  }

  /**
    One group: the characters are the digits to base 64 of the bytes as one big-endian number, which
    zero bits on the right fill up to whole digits.
  */
  lemma {:induction false} GroupSpells(bytes: seq<byte>)
    requires 1 <= |bytes| <= 3
    ensures var s := Encode(bytes);
            && |s| == |bytes| + 1
            && (forall i :: 0 <= i < |s| ==> 0 <= Digit(s[i]) < 64)
            && var b0: int := bytes[0];
               match |bytes|
               case 1 => Digit(s[0]) * 64 + Digit(s[1]) == b0 * 16
               case 2 => (Digit(s[0]) * 64 + Digit(s[1])) * 64 + Digit(s[2]) == (b0 * 256 + bytes[1] as int) * 4
               case _ => ((Digit(s[0]) * 64 + Digit(s[1])) * 64 + Digit(s[2])) * 64 + Digit(s[3])
                         == (b0 * 256 + bytes[1] as int) * 256 + bytes[2] as int
  {
    var s := EncodeGroup(bytes);
    assert Encode(bytes) == s + "" == s;
    var b1 := if |bytes| > 1 then bytes[1] else 0;
    var b2 := if |bytes| > 2 then bytes[2] else 0;
    var v := Pack3(bytes[0], b1, b2);
    Digits64(v);
    assert forall i :: 0 <= i < |s| ==> Digit(s[i]) == if i == 0 then v / 0x4_0000 % 64 else if i == 1 then v / 0x1000 % 64 else if i == 2 then v / 64 % 64 else v % 64;
  }

  /** Groups of three bytes are encoded one after the other. */
  lemma {:induction false} GroupsFollow(a: seq<byte>, b: seq<byte>)
    requires |a| % 3 == 0
    ensures Encode(a + b) == Encode(a) + Encode(b)
    decreases |a|
  {
    hide *;
    if a == [] {
      EncodeNothing();
      assert a + b == b && "" + Encode(b) == Encode(b);
    } else {
      ThreeOff(a, b);
      SameGroup(a + b, a);
      GroupsFollow(a[3..], b);
      EncodeUnfold(a);
      EncodeUnfold(a + b);
      Assoc(EncodeGroup(a), Encode(a[3..]), Encode(b));
    }
  }

  lemma EncodeNothing()
    ensures Encode([]) == ""
  {
  }

  lemma ThreeOff(a: seq<byte>, b: seq<byte>)
    requires |a| >= 3
    ensures (a + b)[3..] == a[3..] + b && (a + b)[0] == a[0] && (a + b)[1] == a[1] && (a + b)[2] == a[2]
  {
  }

  lemma {:induction false} EncodeUnfold(bytes: seq<byte>)
    requires |bytes| >= 3
    ensures Encode(bytes) == EncodeGroup(bytes) + Encode(bytes[3..])
  {
    hide EncodeGroup;
    assert |bytes| == 3 ==> bytes[3..] == [];
  }

  lemma SameGroup(a: seq<byte>, b: seq<byte>)
    requires |a| >= 3 && |b| >= 3 && a[0] == b[0] && a[1] == b[1] && a[2] == b[2]
    ensures EncodeGroup(a) == EncodeGroup(b)
  {
    var v := Pack3(a[0], a[1], a[2]);
    assert |GroupChars(v, |a|)| == 4 && GroupChars(v, |a|) == GroupChars(v, |b|);
  }

  // How many characters of a text carry data.
  function DataChars(s: string): nat {
    if s == "" then 0 else (if IsWhitespace(s[0]) then 0 else 1) + DataChars(s[1..])
  }

  lemma {:induction false} ValuesExist(s: string)
    ensures Values(s).Some? <==> forall i :: 0 <= i < |s| ==> IsWhitespace(s[i]) || 33 <= s[i] as int <= 96
    ensures Values(s).Some? ==> |Values(s).value| == DataChars(s)
  {
    hide IsWhitespace;
    if s != "" {
      ValuesExist(s[1..]);
      assert s == [s[0]] + s[1..];
      if forall i :: 0 <= i < |s| ==> IsWhitespace(s[i]) || 33 <= s[i] as int <= 96 {
        assert forall i :: 0 <= i < |s[1..]| ==> s[1..][i] == s[i + 1];
      }
    }
  }

  lemma {:induction false} GroupsExist(vs: seq<sextet>)
    ensures DecodeValues(vs).Some? <==> |vs| % 4 != 1
    decreases |vs|
  {
    hide GroupBytes, Pack4;
    if |vs| >= 4 {
      GroupsExist(vs[4..]);
    }
  }

  /** A text cannot be decoded exactly when it has a character outside 33..96 that is no white space, or one character too many. */
  lemma {:induction false} DecodeExists(s: string)
    ensures Decode(s).Some? <==>
              && (forall i :: 0 <= i < |s| ==> IsWhitespace(s[i]) || 33 <= s[i] as int <= 96)
              && DataChars(s) % 4 != 1
  {
    ValuesExist(s);
    if Values(s).Some? {
      GroupsExist(Values(s).value);
    }
    hide IsWhitespace, DecodeValues, Values, DataChars;
  }

  // ----- The font section -----

  /** Data lines have 80 characters, the last one perhaps fewer, and together they are the data. */
  lemma {:induction false} ChunkLines(s: string, i: nat)
    requires i < |Chunks(s)|
    ensures |Chunks(s)| == (|s| + 79) / 80 && 80 * i < |s|
    ensures Chunks(s)[i] == if 80 * (i + 1) <= |s| then s[80 * i..80 * (i + 1)] else s[80 * i..]
    decreases |s|
  {
    if |s| <= 80 {
      assert s[0..] == s && s[..|s|] == s;
    } else {
      assert Chunks(s) == [s[..80]] + Chunks(s[80..]);
      ChunkLines(s[80..], if i > 0 then i - 1 else 0);
      if i > 0 {
        assert Chunks(s)[i] == Chunks(s[80..])[i - 1];
        assert s[80..][80 * (i - 1)..] == s[80 * i..];
        assert 80 * (i + 1) <= |s| ==> s[80..][80 * (i - 1)..80 * i] == s[80 * i..80 * (i + 1)];
      }
    }
  }

  /** The section: its header, then for every font a line with its name, its data and an empty line. */
  lemma {:induction false} SectionForm(blocks: seq<Block>, b: Block)
    ensures SectionLines([]) == []
    ensures SectionLines([b]) == ["[Fonts]", "fontname: " + b.name] + Chunks(Encode(b.data)) + [""]
    ensures blocks != [] ==> SectionLines(blocks + [b]) == SectionLines(blocks) + ["fontname: " + b.name] + Chunks(Encode(b.data)) + [""]
  {
    LinesOfLast(blocks, b);
    LinesOfLast([], b);
    hide Chunks, Encode;
    assert [] + [b] == [b] && AllBlockLines([]) == [];
  }

  lemma {:induction false} LinesOfLast(blocks: seq<Block>, b: Block)
    ensures AllBlockLines(blocks + [b]) == AllBlockLines(blocks) + BlockLines(b)
  {
    hide BlockLines;
    if blocks == [] {
      assert blocks + [b] == [b] && [b][1..] == [];
      assert AllBlockLines([]) == [] && BlockLines(b) + [] == BlockLines(b);
    } else {
      assert (blocks + [b])[1..] == blocks[1..] + [b];
      LinesOfLast(blocks[1..], b);
    }
  }

  /** A mapping comment, literally. */
  lemma CommentForm(embedded: string, original: string)
    ensures Comment(embedded, original) == "; Font Subset: " + embedded + " - " + original
  {
    assert CommentPrefix + " " == "; Font Subset: ";
  }

  /** The file names of the four slots. */
  lemma SlotSuffixes(f: Font)
    ensures BlocksOf([f]) == [Block(f.embedded + match f.slot
                                                 case Normal => "_0.ttf"
                                                 case Bold => "_B0.ttf"
                                                 case Italic => "_I0.ttf"
                                                 case BoldItalic => "_BI0.ttf", f.data)]
  {
    assert [f][1..] == [];
  }
}
