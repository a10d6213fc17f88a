/**
  How the columns of a `Format:` line decide what a Style or Dialogue line says.
*/
module Columns {
  import opened Text
  import opened FontNames
  import opened Drawings
  import opened Document
  import opened LineFacts
  import opened DrawingLines
  import opened Interpreter
  import RewriterTheorem

  // ----- Format lines -----

  lemma {:induction false} SplitOne(s: string, c: char)
    requires c !in s
    ensures Split(s, c) == [s]
  {
    FindCharIs(s, c, "");
    assert s + "" == s;
  }

  lemma {:induction false} SplitFirst(a: string, c: char, rest: string)
    requires c !in a
    ensures Split(a + [c] + rest, c) == [a] + Split(rest, c)
  {
    var s := a + [c] + rest;
    assert s == a + ([c] + rest);
    FindCharIs(a, c, [c] + rest);
    assert s[..|a|] == a && s[|a| + 1..] == rest;
  }

  /** Splitting at commas undoes joining with them, for parts without commas. */
  lemma {:induction false} SplitJoined(parts: seq<string>)
    requires parts != [] && forall i :: 0 <= i < |parts| ==> ',' !in parts[i]
    ensures Split(Join(parts, ","), ',') == parts
    decreases |parts|
  {
    if |parts| == 1 {
      SplitOne(parts[0], ',');
      assert parts == [parts[0]];
    } else {
      SplitJoined(parts[1..]);
      SplitFirst(parts[0], ',', Join(parts[1..], ","));
      assert parts == [parts[0]] + parts[1..];
    }
  }

  lemma {:induction false} EachTrimmedLower(parts: seq<string>, i: nat)
    requires i < |parts|
    ensures TrimLowerAll(parts)[i] == Lower(Trim(parts[i]))
    decreases |parts|
  {
    if i > 0 {
      EachTrimmedLower(parts[1..], i - 1);
    }
  }

  /** A `Format:` line names the columns: one for each part between commas, without blanks around it and in lower case. */
  lemma {:induction false} FormatNames(parts: seq<string>, i: nat)
    requires i < |parts| && forall k :: 0 <= k < |parts| ==> ',' !in parts[k]
    ensures |FormatFields(Join(parts, ","))| == |parts| && FormatFields(Join(parts, ","))[i] == Lower(Trim(parts[i]))
  {
    SplitJoined(parts);
    EachTrimmedLower(parts, i);
  }

  // The first column of that name, or a default.
  predicate IsColumn(format: seq<string>, name: string, default: nat, k: nat) {
    if name in format then k < |format| && format[k] == name && name !in format[..k] else k == default
  }

  lemma {:induction false} ColumnIs(format: seq<string>, name: string, default: nat)
    ensures IsColumn(format, name, default, if Position(format, name) < |format| then Position(format, name) else default)
  {
  }

  // ----- Style lines -----

  /**
    A Style line is renamed in its font column and nowhere else: the column `fontname`, or the second
    when the format has none.
  */
  lemma StyleRenames(lead: string, fields: seq<string>, format: seq<string>, m: Renaming, k: nat)
    requires Blank(lead) && CleanFields(fields) && |fields| == (if |format| > 23 then |format| else 23)
    requires IsColumn(format, "fontname", 1, k)
    ensures k < |fields|
    ensures RewriteStyleLine(lead + "Style: " + Join(fields, ","), format, m)
            == lead + "Style: " + Join(if LookupName(fields[k]) in m then fields[k := m[LookupName(fields[k])]] else fields, ",")
  {
    StyleFieldsOfLine(lead, fields, format);
    ColumnIs(format, "fontname", 1);
    hide StyleFields, LookupName, Join;
    assert FontIndex(format) == k;
  }

  // ----- Printed lines -----

  // Fields joined after a prefix: the line starts with the prefix and its fields are found again.
  lemma {:induction false} PrintedLine(lead: string, prefix: string, fields: seq<string>)
    requires Blank(lead) && CleanFields(fields) && |fields| >= 2 && |prefix| > 0
    requires !IsWhitespace(prefix[0]) && !IsWhitespace(prefix[|prefix| - 1])
    ensures var line, start := lead + prefix + " " + Join(fields, ","), prefix + (" " + Join(fields, ","));
            && TrimStart(line) == start && line[..|line| - |start|] == lead && Trim(line) == start
            && TrimStart(" " + Join(fields, ",")) == Join(fields, ",") == Trim(" " + Join(fields, ","))
            && SplitFields(Join(fields, ","), |fields|) == fields
  {
    var joined := Join(fields, ",");
    var start := prefix + (" " + joined);
    assert lead + prefix + " " + joined == lead + start;
    JoinStart(fields);
    JoinEnd(fields);
    SplitJoin(fields);
    hide Join, SplitFields, CleanFields;
    TrimStartOfBlank(lead, start);
    assert TrimStart(start) == start;
    TrimStartOfBlank(" ", joined);
    assert TrimStart(joined) == joined;
    assert start[|start| - 1] == joined[|joined| - 1];
    assert TrimEnd(start) == start && TrimEnd(joined) == joined;
  }

  lemma {:induction false} JoinEnd(fields: seq<string>)
    requires |fields| >= 2 && CleanFields(fields)
    ensures Join(fields, ",") != "" && !IsWhitespace(Join(fields, ",")[|Join(fields, ",")| - 1])
  {
    JoinLast(fields);
  }

  lemma PrefixRead(prefix: string, rest: string)
    ensures StripPrefixCi(prefix + rest, prefix) == Some(rest)
  {
    assert (prefix + rest)[..|prefix|] == prefix && (prefix + rest)[|prefix|..] == rest;
  }

  // ----- Styles -----

  // The flag a style has in a column, off when there is no such column.
  predicate Flag(format: seq<string>, fields: seq<string>, name: string)
    requires |format| <= |fields|
  {
    exists k :: 0 <= k < |format| && format[k] == name && name !in format[..k] && Boolish(fields[k])
  }

  lemma FlagIs(format: seq<string>, fields: seq<string>, name: string)
    requires |format| <= |fields|
    ensures BoolField(format, fields, name) <==> Flag(format, fields, name)
  {
    hide Boolish;
    var k := Position(format, name);
    if k < |format| {
      assert name !in format[..k];
      assert Flag(format, fields, name) ==> Boolish(fields[k]);
    }
  }

  /**
    A Style line of a styles section defines the style of its name column with the font of its font
    column and the two flags; without a name or a font it defines nothing. The name comes first and
    the font second when the format does not say.
  */
  lemma {:induction false} StyleDefines(s: Script, lead: string, fields: seq<string>, n: nat, f: nat)
    requires InStyles(s.section) && Blank(lead) && CleanFields(fields)
    requires |fields| == (if |s.styleFormat| > 23 then |s.styleFormat| else 23)
    requires IsColumn(s.styleFormat, "name", 0, n) && IsColumn(s.styleFormat, "fontname", 1, f)
    ensures n < |fields| && f < |fields|
    ensures ScriptLine(s, lead + "Style:" + " " + Join(fields, ",")) ==
            if fields[n] == "" || NormFont(fields[f]) == "" then s
            else s.(styles := s.styles[fields[n] := StyleInfo(NormFont(fields[f]), Flag(s.styleFormat, fields, "bold"),
                                                              Flag(s.styleFormat, fields, "italic"))])
  {
    hide *;
    var line, joined := lead + "Style:" + " " + Join(fields, ","), Join(fields, ",");
    StyleRead(lead, fields, s.styleFormat);
    StyleLineStep(s, line, " " + joined);
    StyleOfFields(s.styles, s.styleFormat, fields, n, f);
  }

  lemma {:induction false} StyleRead(lead: string, fields: seq<string>, format: seq<string>)
    requires Blank(lead) && CleanFields(fields) && |fields| == (if |format| > 23 then |format| else 23)
    ensures var line := lead + "Style:" + " " + Join(fields, ",");
            && Header(line) == None && StripPrefixCi(Trim(line), "Format:") == None
            && StripPrefixCi(Trim(line), "Style:") == Some(" " + Join(fields, ","))
            && SplitFields(Trim(" " + Join(fields, ",")), StyleFieldCount(format)) == fields
  {
    var line := lead + "Style:" + " " + Join(fields, ",");
    PrintedLine(lead, "Style:", fields);
    PrefixRead("Style:", " " + Join(fields, ","));
    hide Join, SplitFields, CleanFields, StripPrefixCi;
    assert StartsAs(line, "Style:") by { assert Trim(line)[..6] == "Style:"; }
    hide Trim;
    StyleStartFacts(line);
  }

  lemma StyleLineStep(s: Script, line: string, rest: string)
    requires InStyles(s.section) && Header(line) == None && StripPrefixCi(Trim(line), "Format:") == None
    requires StripPrefixCi(Trim(line), "Style:") == Some(rest)
    ensures ScriptLine(s, line) ==
            s.(styles := DefineStyle(s.styles, s.styleFormat, SplitFields(Trim(rest), StyleFieldCount(s.styleFormat))))
  {
    hide Header, InStyles, StripPrefixCi, Trim, DefineStyle, SplitFields;
  }

  lemma StyleOfFields(styles: Styles, format: seq<string>, fields: seq<string>, n: nat, f: nat)
    requires |fields| == (if |format| > 23 then |format| else 23) && CleanFields(fields)
    requires IsColumn(format, "name", 0, n) && IsColumn(format, "fontname", 1, f)
    ensures n < |fields| && f < |fields|
    ensures DefineStyle(styles, format, fields) ==
            if fields[n] == "" || NormFont(fields[f]) == "" then styles
            else styles[fields[n] := StyleInfo(NormFont(fields[f]), Flag(format, fields, "bold"), Flag(format, fields, "italic"))]
  {
    ColumnsAre(format, n, f);
    FlagIs(format, fields, "bold");
    FlagIs(format, fields, "italic");
    assert n < |fields| && f < |fields| && Trimmed(fields[n]) && Trimmed(fields[f]);
    hide NormFont, BoolField, Flag, Trim, Trimmed, IsColumn, CleanFields, NameIndex, FontIndex;
    TrimOfTrimmed(fields[n]);
    TrimOfTrimmed(fields[f]);
  }

  lemma ColumnsAre(format: seq<string>, n: nat, f: nat)
    requires IsColumn(format, "name", 0, n) && IsColumn(format, "fontname", 1, f)
    ensures NameIndex(format) == n && FontIndex(format) == f
  {
    ColumnIs(format, "name", 0);
    ColumnIs(format, "fontname", 1);
    SameColumn(format, "name", 0, n, NameIndex(format));
    SameColumn(format, "fontname", 1, f, FontIndex(format));
  }

  lemma SameColumn(format: seq<string>, name: string, default: nat, a: nat, b: nat)
    requires IsColumn(format, name, default, a) && IsColumn(format, name, default, b)
    ensures a == b
  {
  }

  // ----- Dialogue lines -----

  lemma {:induction false} DialogueRead(lead: string, fields: seq<string>, format: seq<string>)
    requires Blank(lead) && CleanFields(fields) && |fields| == |format| >= 2
    ensures var line := lead + "Dialogue:" + " " + Join(fields, ",");
            && Header(line) == None && StripPrefixCi(Trim(line), "Format:") == None
            && StripPrefixCi(TrimStart(line), "Dialogue:") == Some(" " + Join(fields, ","))
            && TrimStart(" " + Join(fields, ",")) == Join(fields, ",") && SplitFields(Join(fields, ","), |format|) == fields
            && line[..|line| - |TrimStart(line)|] == lead
  {
    var line, joined := lead + "Dialogue:" + " " + Join(fields, ","), Join(fields, ",");
    PrintedLine(lead, "Dialogue:", fields);
    PrefixRead("Dialogue:", " " + joined);
    hide Join, SplitFields, CleanFields;
    assert StartsAs(line, "Dialogue:") by { assert Trim(line)[..9] == "Dialogue:"; }
    DialogueKind(line);
    NoFormat(Trim(line));
  }

  lemma NoFormat(t: string)
    requires |t| >= 9 && t[..9] == "Dialogue:"
    ensures StripPrefixCi(t, "Format:") == None
  {
    assert t[..7][0] == t[..9][0] == 'D';
    assert Lower(t[..7])[0] == 'd' && Lower("Format:")[0] == 'f';
  }

  /**
    A Dialogue line of the events section is read in its Text column, starting from the style its
    Style column names, or from Arial when no such style was defined.
  */
  lemma {:induction false} DialogueReads(s: Script, lead: string, fields: seq<string>, y: nat, t: nat)
    requires s.section == "events" && Blank(lead) && CleanFields(fields) && |fields| == |s.eventFormat|
    requires "style" in s.eventFormat && "text" in s.eventFormat
    requires IsColumn(s.eventFormat, "style", 0, y) && IsColumn(s.eventFormat, "text", 0, t)
    ensures y < |fields| && t < |fields|
    ensures var base := if fields[y] in s.styles then s.styles[fields[y]] else StyleInfo("Arial", false, false);
            var st := TagState(base, 0);
            ScriptLine(s, lead + "Dialogue:" + " " + Join(fields, ",")) ==
            s.(runs := s.runs + Runs(fields[t], st, base, s.styles), drawings := s.drawings + DrawingCount(fields[t], st, base, s.styles))
  {
    var line := lead + "Dialogue:" + " " + Join(fields, ",");
    ColumnIs(s.eventFormat, "style", 0);
    ColumnIs(s.eventFormat, "text", 0);
    assert y != t && |fields| >= 2;
    assert Trimmed(fields[y]);
    hide *;
    DialogueRead(lead, fields, s.eventFormat);
    TrimOfTrimmed(fields[y]);
    RewriterTheorem.StylesAreNotEvents("events");
    DialogueLineStep(s, line, " " + Join(fields, ","), fields, y, t);
  }

  lemma {:induction false} DialogueLineStep(s: Script, line: string, rest: string, fields: seq<string>, y: nat, t: nat)
    requires s.section == "events" && !InStyles("events") && Header(line) == None && StripPrefixCi(Trim(line), "Format:") == None
    requires StripPrefixCi(TrimStart(line), "Dialogue:") == Some(rest) && SplitFields(TrimStart(rest), |s.eventFormat|) == fields
    requires y == Position(s.eventFormat, "style") < |s.eventFormat| && t == Position(s.eventFormat, "text") < |s.eventFormat|
    requires y < |fields| && t < |fields| && Trim(fields[y]) == fields[y]
    ensures var base := if fields[y] in s.styles then s.styles[fields[y]] else StyleInfo("Arial", false, false);
            var st := TagState(base, 0);
            ScriptLine(s, line) ==
            s.(runs := s.runs + Runs(fields[t], st, base, s.styles), drawings := s.drawings + DrawingCount(fields[t], st, base, s.styles))
  {
    hide Header, InStyles, StripPrefixCi, Trim, TrimStart, SplitFields, Runs, DrawingCount, Position;
  }

  /** The drawing pass rewrites the Text column of a Dialogue line of the events section, and prints the line again. */
  lemma DialogueDrawn(st: DrawPass, lead: string, fields: seq<string>, t: nat)
    requires st.section == "events" && Blank(lead) && CleanFields(fields) && |fields| == |st.format| >= 2
    requires "text" in st.format && IsColumn(st.format, "text", 0, t)
    ensures t < |fields|
    ensures DrawLine(st, lead + "Dialogue:" + " " + Join(fields, ",")) ==
            (lead + "Dialogue: " + Join(fields[t := Rewrite(fields[t], st.book).0], ","), st.(book := Rewrite(fields[t], st.book).1))
  {
    ColumnIs(st.format, "text", 0);
    DialogueRead(lead, fields, st.format);
    hide Join, SplitFields, Header, Trim, TrimStart, StripPrefixCi, Rewrite, IsColumn, CleanFields;
  }
}
