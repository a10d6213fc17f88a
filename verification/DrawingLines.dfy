/**
  The drawing pass over whole lines: what it does to a Dialogue line, and that restoring the line
  gives it back with its fields trimmed. Only the Text field changes, so the fields in front of it
  have to be found again in the written line, and the entries of later lines must not disturb
  what an earlier line restores to.
*/
module DrawingLines {
  import opened Text
  import opened Drawings
  import opened Document
  import opened LineFacts

  // What comes before and after field `k` once the fields are joined.
  function Before(fields: seq<string>, k: nat): string
    requires k < |fields|
  {
    if k == 0 then "" else fields[0] + "," + Before(fields[1..], k - 1)
  }

  function After(fields: seq<string>, k: nat): string
    requires k < |fields|
  {
    if k == |fields| - 1 then "" else "," + Join(fields[k + 1..], ",")
  }

  lemma {:induction false} JoinAround(fields: seq<string>, k: nat, x: string)
    requires k < |fields|
    ensures Join(fields[k := x], ",") == Before(fields, k) + x + After(fields, k)
    decreases |fields|
  {
    var updated := fields[k := x];
    if k == 0 {
      assert updated[1..] == fields[1..];
      if |fields| == 1 {
        assert "" + x + "" == x;
      } else {
        assert "" + x == x;
        Assoc(x, ",", Join(fields[1..], ","));
      }
    } else {
      assert updated[1..] == fields[1..][k - 1 := x];
      JoinAround(fields[1..], k - 1, x);
      var b, a := Before(fields[1..], k - 1), After(fields[1..], k - 1);
      assert After(fields, k) == a by {
        assert fields[1..][k..] == fields[k + 1..];
      }
      hide Join, Before, After;
      assert fields[0] + "," + (b + x + a) == fields[0] + "," + b + x + a;
    }
  }

  lemma {:induction false} BeforeChars(fields: seq<string>, k: nat, c: char)
    requires k < |fields| && c != ',' && forall i :: 0 <= i < k ==> c !in fields[i]
    ensures c !in Before(fields, k)
    decreases k
  {
    if k > 0 {
      BeforeChars(fields[1..], k - 1, c);
    }
  }

  // ----- The marker and fields -----

  lemma {:induction false} MarkerAcross(a: string, c: char, b: string)
    requires c == ',' && HasMarker(a + [c] + b)
    ensures HasMarker(a) || HasMarker(b)
    decreases |a|
  {
    var s := a + [c] + b;
    assert ',' !in Marker;
    if |a| < |Marker| <= |s| {
      assert s[..|Marker|][|a|] == ',';
    }
    if a == "" {
      assert s[1..] == b;
    } else if StartsWith(s, Marker) {
      assert s[..|Marker|] == a[..|Marker|];
    } else {
      assert s[1..] == a[1..] + [c] + b;
      MarkerAcross(a[1..], c, b);
    }
  }

  lemma {:induction false} JoinNoMarker(fields: seq<string>)
    requires forall i :: 0 <= i < |fields| ==> !HasMarker(fields[i])
    ensures !HasMarker(Join(fields, ","))
    decreases |fields|
  {
    if |fields| > 1 {
      hide HasMarker;
      JoinNoMarker(fields[1..]);
      if HasMarker(Join(fields, ",")) {
        assert Join(fields, ",") == fields[0] + [','] + Join(fields[1..], ",");
        MarkerAcross(fields[0], ',', Join(fields[1..], ","));
      }
    }
  }

  lemma {:induction false} TrimNoMarker(s: string)
    requires !HasMarker(s)
    ensures !HasMarker(Trim(s))
  {
    hide HasMarker;
    var a, b := TrimSplits(s);
    hide Trim;
    MarkerInside(a, Trim(s), b);
  }

  lemma {:induction false} FieldStepNoMarker(s: string)
    requires !HasMarker(s)
    ensures !HasMarker(FieldStep(s).0) && !HasMarker(FieldStep(s).1)
  {
    assert !HasMarker("");
    hide HasMarker;
    var k := FindChar(s, ',');
    if k < |s| {
      MarkerInPrefix(s[..k], s[k..]);
      MarkerInSuffix(s[..k + 1], s[k + 1..]);
      assert s == s[..k] + s[k..] && s == s[..k + 1] + s[k + 1..];
      TrimNoMarker(s[..k]);
    } else {
      TrimNoMarker(s);
    }
  }

  lemma {:induction false} FieldsNoMarker(s: string, n: nat)
    requires !HasMarker(s)
    ensures forall i :: 0 <= i < n ==> !HasMarker(SplitFields(s, n)[i])
    decreases n
  {
    hide HasMarker;
    if n == 1 {
      TrimNoMarker(s);
    } else if n > 1 {
      SplitFieldsUnfold(s, n);
      FieldStepNoMarker(s);
      hide SplitFields, FieldStep;
      FieldsNoMarker(FieldStep(s).1, n - 1);
    }
  }

  // The fields of a line without the marker are without it too.
  lemma {:induction false} DialogueNoMarker(line: string, format: seq<string>)
    requires !HasMarker(line) && DialogueFields(line, format).Some?
    ensures forall i :: 0 <= i < |format| ==> !HasMarker(DialogueFields(line, format).value.1[i])
  {
    hide HasMarker, SplitFields;
    var start := TrimStart(line);
    var a := TrimStartFacts(line);
    var rest := start[9..];
    var b := TrimStartFacts(rest);
    hide TrimStart;
    MarkerInSuffix(a, start);
    assert start == start[..9] + rest;
    MarkerInSuffix(start[..9], rest);
    MarkerInSuffix(b, TrimStart(rest));
    FieldsNoMarker(TrimStart(rest), |format|);
  }

  // ----- One line -----

  lemma {:induction false} DialogueFacts(line: string, format: seq<string>)
    requires DialogueFields(line, format).Some?
    ensures var (lead, fields) := DialogueFields(line, format).value;
            && Blank(lead) && |fields| == |format| && CleanFields(fields)
            && Position(format, "text") < |fields|
  {
    var start := TrimStart(line);
    var a := TrimStartFacts(line);
    assert line[..|line| - |start|] == a;
    SplitFieldsClean(TrimStart(start[9..]), |format|);
  }

  // The line printed again from its own fields.
  function NormalDialogue(line: string, format: seq<string>): string {
    match DialogueFields(line, format)
    case None => line
    case Some((lead, fields)) => DialogueLine(lead, fields)
  }

  // No brace opens before the Text field.
  predicate NoBraceBeforeText(line: string, format: seq<string>) {
    DialogueFields(line, format).Some? ==>
      var fields := DialogueFields(line, format).value.1;
      forall i :: 0 <= i < Position(format, "text") && i < |fields| ==> '{' !in fields[i]
  }

  lemma {:induction false} LineAround(lead: string, fields: seq<string>, k: nat, x: string)
    requires k < |fields|
    ensures DialogueLine(lead, fields[k := x]) == (lead + "Dialogue: " + Before(fields, k)) + (x + After(fields, k))
  {
    JoinAround(fields, k, x);
    hide Join;
    Assoc(Before(fields, k), x, After(fields, k));
    Assoc(lead + "Dialogue: ", Before(fields, k), x + After(fields, k));
  }

  lemma TailNoMarker(fields: seq<string>, k: nat)
    requires k < |fields| && forall i :: 0 <= i < |fields| ==> !HasMarker(fields[i])
    ensures !HasMarker(fields[k] + After(fields, k))
  {
    hide HasMarker;
    if k == |fields| - 1 {
      assert fields[k] + "" == fields[k];
    } else {
      var rest := Join(fields[k + 1..], ",");
      JoinNoMarker(fields[k + 1..]);
      hide Join;
      if HasMarker(fields[k] + After(fields, k)) {
        assert fields[k] + After(fields, k) == fields[k] + [','] + rest;
        MarkerAcross(fields[k], ',', rest);
      }
    }
  }

  /** Restoring a rewritten Dialogue line gives the line back with its fields trimmed. */
  lemma {:induction false} RestoreDialogue(line: string, st: DrawPass, dm: DrawMap)
    requires st.section == "events" && Header(line) == None && Valid(st.book) && !HasMarker(line)
    requires StripPrefixCi(Trim(line), "Format:") == None
    requires NoBraceBeforeText(line, st.format) && Covers(dm, DrawLine(st, line).1.book.entries)
    ensures Restore(DrawLine(st, line).0, dm) == NormalDialogue(line, st.format)
  {
    hide HasMarker, Restore, Rewrite, Valid, Covers, Trim, StripPrefixCi;
    if DialogueFields(line, st.format).None? {
      RestoreNothing(line, dm);
    } else {
      DialogueFacts(line, st.format);
      DialogueNoMarker(line, st.format);
      var (lead, fields) := DialogueFields(line, st.format).value;
      hide DialogueFields;
      var k := Position(st.format, "text");
      var (text, book) := Rewrite(fields[k], st.book);
      var front, back := lead + "Dialogue: " + Before(fields, k), After(fields, k);
      TailNoMarker(fields, k);
      RestoreRewrite(fields[k], back, st.book, dm);
      assert '{' !in front by {
        BeforeChars(fields, k, '{');
        assert '{' !in lead;
      }
      hide Before, After;
      RestoreAfterPlain(front, text + back, dm);
      LineAround(lead, fields, k, text);
      LineAround(lead, fields, k, fields[k]);
      assert fields[k := fields[k]] == fields;
    }
  }

  // ----- The kind of the line -----

  lemma DialogueStarts(lead: string, fields: seq<string>)
    requires Blank(lead)
    ensures StartsAs(DialogueLine(lead, fields), "Dialogue:")
  {
    var line := DialogueLine(lead, fields);
    assert line == lead + ("Dialogue:" + (" " + Join(fields, ",")));
    TrimKeepsStart(lead, "Dialogue:", " " + Join(fields, ","));
  }

  lemma DialogueKind(line: string)
    requires StartsAs(line, "Dialogue:")
    ensures Header(line) == None && !IsComment(line) && line != ""
  {
    var t := Trim(line);
    hide Trim;
    assert t[0] == 'D' by { assert t[..9][0] == 'D'; }
    PrefixOf(t, CommentPrefix);
    if |t| >= 14 {
      assert Lower(t[..14])[0] == 'd';
      assert Lower(CommentPrefix)[0] == ';';
    }
    assert line != "" by {
      if line == "" {
        TrimOfTrimmed("");
      }
    }
  }

  /** The drawing pass keeps the kind of every line: header for header, ordinary for ordinary. */
  lemma DrawLineKind(st: DrawPass, line: string)
    ensures var out := DrawLine(st, line).0;
            && Header(out) == Header(line)
            && (Header(line) != None ==> out == line)
            && (!IsComment(line) ==> !IsComment(out))
            && (st.section != "events" ==> out == line)
            && (line != "" ==> out != "")
  {
    hide Rewrite, Trim, StripPrefixCi, Lower, SectionHeader, StartsAs;
    var out := DrawLine(st, line).0;
    if out != line {
      DialogueFacts(line, st.format);
      var (lead, fields) := DialogueFields(line, st.format).value;
      var k := Position(st.format, "text");
      DialogueStarts(lead, fields[k := Rewrite(fields[k], st.book).0]);
      DialogueKind(out);
    }
  }

  // ----- Clean lines -----

  lemma CleanParts(s: string, kept: string, drawing: string, rest: string)
    requires CleanLine(s) && s == kept + drawing + rest
    ensures '\n' !in kept && '\n' !in rest
    ensures rest != "" ==> CleanLine(rest)
    ensures rest == "" && drawing == "" ==> CleanLine(kept)
  {
    Assoc(kept, drawing, rest);
    assert s == "" + kept + (drawing + rest) && s == (kept + drawing) + rest + "";
    SubCleanLine(s, "", kept, drawing + rest);
    SubCleanLine(s, kept + drawing, rest, "");
    if rest != "" {
      assert s[|s| - 1] == rest[|rest| - 1];
    } else if drawing == "" {
      assert s == kept;
    }
  }

  // Characters a dictionary hands out are private-use characters, one each.
  predicate GoodChars(book: Book) {
    forall d :: d in book.byData ==> |book.byData[d]| == 1 && book.byData[d][0] >= '\U{E000}'
  }

  lemma RoundCleanLine(s: string, book: Book)
    requires s != "" && CleanLine(s) && GoodChars(book)
    ensures var p := NextPiece(s);
            && GoodChars(Round(p, book).1)
            && '\n' !in Round(p, book).0
            && (p.rest != "" ==> CleanLine(p.rest))
            && (p.rest == "" ==> CleanLine(Round(p, book).0))
  {
    PieceSplits(s);
    hide NextPiece, CleanLine, Register, GoodChars;
    var p := NextPiece(s);
    CleanParts(s, p.kept, p.drawing, p.rest);
    if p.drawing != "" {
      RegisterGoodChar(book, p.drawing, p.level);
      PieceLine(p.kept, Register(book, p.drawing, p.level).1);
    }
  }

  // A piece that ends in a private-use character ends no line.
  lemma PieceLine(kept: string, ch: string)
    requires '\n' !in kept && |ch| == 1 && ch[0] >= '\U{E000}'
    ensures '\n' !in kept + Token + ch && CleanLine(kept + Token + ch)
  {
    TokenIsOneLine();
    var line := kept + Token + ch;
    assert line[|line| - 1] == ch[0];
  }

  lemma TokenIsOneLine()
    ensures '\n' !in Token
  {
  }

  lemma RegisterGoodChar(book: Book, drawing: string, level: nat)
    requires GoodChars(book)
    ensures var (book', ch) := Register(book, drawing, level);
            GoodChars(book') && |ch| == 1 && ch[0] >= '\U{E000}'
  {
  }

  lemma {:induction false} RewriteTextClean(s: string, book: Book)
    requires CleanLine(s) && GoodChars(book)
    ensures CleanLine(Rewrite(s, book).0) && GoodChars(Rewrite(s, book).1)
    decreases |s|
  {
    if s != "" {
      RoundCleanLine(s, book);
      Drawings.RewriteStep(s, book);
      var p := NextPiece(s);
      var (out, book') := Round(p, book);
      if p.rest == "" {
        assert Rewrite(p.rest, book').0 == "";
        assert out + "" == out;
      } else {
        hide Rewrite, NextPiece, Round, GoodChars;
        RewriteTextClean(p.rest, book');
      }
    }
  }

  lemma DrawLineClean(st: DrawPass, line: string)
    requires CleanLine(line) && GoodChars(st.book)
    ensures CleanLine(DrawLine(st, line).0) && GoodChars(DrawLine(st, line).1.book)
  {
    hide Rewrite, Trim, Lower, SectionHeader, GoodChars;
    if Header(line) == None && st.section == "events" && DialogueFields(line, st.format).Some?
       && StripPrefixCi(Trim(line), "Format:") == None {
      DialogueFacts(line, st.format);
      FieldsOfCleanLine(line, "Dialogue:", |st.format|);
      var (lead, fields) := DialogueFields(line, st.format).value;
      hide DialogueFields, StripPrefixCi, SplitFields;
      var k := Position(st.format, "text");
      RewriteTextClean(fields[k], st.book);
      JoinedLineClean(lead + "Dialogue: ", fields[k := Rewrite(fields[k], st.book).0]);
    }
  }
}
