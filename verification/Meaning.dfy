/**
  Renaming preserves the meaning of a whole script: what the interpreter finds in the text the
  subset pass writes is what it finds in the original, under the renamed fonts. A line is renamed
  as a whole and read field by field, so the Text field is found again in the renamed line, with
  every field around it as it was.
*/
module Meaning {
  import opened Text
  import opened FontNames
  import opened Interpreter
  import opened TagMeaning
  import opened TextMeaning

  // ----- One field of a line -----

  // Where the last of `n` fields starts, which takes the rest of the text.
  function LastStart(s: string, n: nat): (k: nat)
    ensures k <= |s|
    decreases n
  {
    if n <= 1 then 0
    else
      var k := FindChar(s, ',');
      if k == |s| then |s| else k + 1 + LastStart(s[k + 1..], n - 1)
  }

  lemma {:induction false} LastStartComma(head: string, rest: string, n: nat)
    requires n > 1 && ',' !in head
    ensures LastStart(head + "," + rest, n) == |head| + 1 + LastStart(rest, n - 1)
  {
    var s := head + "," + rest;
    Assoc(head, ",", rest);
    FindCharIs(head, ',', "," + rest);
    assert s[|head| + 1..] == rest;
  }

  lemma CutAfterComma(head: string, rest: string, k: nat, t: string)
    requires k <= |rest|
    ensures var s, n := head + "," + rest, |head| + 1 + k;
            s[n..] == rest[k..] && s[..n] + t == head + "," + (rest[..k] + t)
  {
  }

  lemma {:induction false} BlankTail(j: nat, n: nat)
    requires 1 <= j < n
    ensures SplitFields("", n) == SplitFields("", n)[..j] + SplitFields("", n - j)
    decreases j
  {
    SplitFieldsNoComma("", n);
    TrimOfTrimmed("");
    hide Trim;
    if j > 1 {
      BlankTail(j - 1, n - 1);
    }
  }

  lemma {:induction false} ReplaceWithoutComma(s: string, j: nat, n: nat)
    requires 1 <= j < n && ',' !in s
    ensures LastStart(s, j + 1) == |s| && SplitFields(s, n) == SplitFields(s, n)[..j] + SplitFields("", n - j)
  {
    Absent(s, ',');
    SplitFieldsNoComma(s, n);
    hide Trim, FindChar;
    if j > 1 {
      BlankTail(j - 1, n - 1);
    }
  }

  lemma {:induction false} ReplaceAll(s: string, t: string, n: nat)
    ensures LastStart(s, 1) == 0 && s[0..] == s && s[..0] + t == t
    ensures SplitFields(s, n) == SplitFields(s, n)[..0] + SplitFields(s, n) && SplitFields(t, n) == SplitFields(s, n)[..0] + SplitFields(t, n)
  {
    hide SplitFields;
  }

  lemma OneLater(first: string, all: seq<string>, back: seq<string>, j: nat)
    requires 1 <= j <= |all|
    ensures ([first] + all)[..j] + back == [first] + (all[..j - 1] + back)
  {
  }

  // Replacing the text from the start of field `j` on leaves the fields before it alone.
  lemma {:induction false} ReplaceFrom(s: string, j: nat, n: nat, t: string)
    requires j < n && (s[LastStart(s, j + 1)..] == "" ==> t == "")
    ensures var k := LastStart(s, j + 1);
            && SplitFields(s, n) == SplitFields(s, n)[..j] + SplitFields(s[k..], n - j)
            && SplitFields(s[..k] + t, n) == SplitFields(s, n)[..j] + SplitFields(t, n - j)
    decreases n
  {
    hide *;
    if j == 0 {
      ReplaceAll(s, t, n);
    } else if ',' !in s {
      ReplaceWithoutComma(s, j, n);
      assert s[..|s|] + "" == s && s[|s|..] == "";
    } else {
      var head, rest := CutAtComma(s);
      var k := LastStart(rest, j);
      LastStartComma(head, rest, j + 1);
      CutAfterComma(head, rest, k, t);
      SplitFieldsComma(head, rest, n);
      SplitFieldsComma(head, rest[..k] + t, n);
      ReplaceFrom(rest, j - 1, n - 1, t);
      var all := SplitFields(rest, n - 1);
      FieldCount(rest, n - 1);
      OneLater(Trim(head), all, SplitFields(rest[k..], n - j), j);
      OneLater(Trim(head), all, SplitFields(t, n - j), j);
    }
  }

  lemma {:induction false} FieldCount(s: string, n: nat)
    ensures |SplitFields(s, n)| == n
  {
  }

  lemma CutAtComma(s: string) returns (head: string, rest: string)
    requires ',' in s
    ensures s == head + "," + rest && ',' !in head
  {
    Absent(s, ',');
    FindCharFirst(s, ',');
    var c := FindChar(s, ',');
    head, rest := s[..c], s[c + 1..];
  }

  // ----- Dialogue lines -----

  // How many characters of a `Dialogue:` line stand before its Text field.
  function BeforeText(line: string, format: seq<string>): (k: nat)
    ensures k <= |line|
  {
    match StripPrefixCi(TrimStart(line), "Dialogue:")
    case None => |line|
    case Some(rest) =>
      var r := TrimStart(rest);
      |line| - (|r| - LastStart(r, Position(format, "text") + 1))
  }

  const DialoguePrefix := "Dialogue:"

  lemma StartsDialogue(d: string)
    requires Lower(d) == Lower(DialoguePrefix)
    ensures |d| == 9 && !IsWhitespace(d[0])
  {
    assert Lower(d)[0] == LowerChar(d[0]) == 'd';
  }

  // The text after the prefix of a dialogue line, without the blanks before it.
  function AfterPrefix(line: string): Option<string> {
    match StripPrefixCi(TrimStart(line), DialoguePrefix)
    case None => None
    case Some(rest) => Some(TrimStart(rest))
  }

  // Blank text, the prefix, and blank text.
  ghost predicate IsFront(front: string) {
    exists a, d, b :: Blank(a) && Blank(b) && Lower(d) == Lower(DialoguePrefix) && front == a + d + b
  }

  lemma DialogueFront(line: string) returns (front: string)
    requires AfterPrefix(line).Some?
    ensures IsFront(front) && line == front + AfterPrefix(line).value
    ensures AfterPrefix(line).value != "" ==> !IsWhitespace(AfterPrefix(line).value[0])
  {
    var a := TrimStartFacts(line);
    var start := TrimStart(line);
    var d, rest := start[..9], start[9..];
    assert Lower(d) == Lower(DialoguePrefix) && StripPrefixCi(start, DialoguePrefix) == Some(rest);
    var b := TrimStartFacts(rest);
    hide TrimStart, Blank, Lower, StripPrefixCi;
    front := a + d + b;
    Assoc(a, d, rest);
    Assoc(a + d, b, TrimStart(rest));
    assert start == d + rest;
  }

  lemma {:induction false} FrontReads(front: string, t: string)
    requires IsFront(front) && TrimStart(t) == t
    ensures AfterPrefix(front + t) == Some(t)
  {
    var a, d, b :| Blank(a) && Blank(b) && Lower(d) == Lower(DialoguePrefix) && front == a + d + b;
    ReadsDialogue(a, d, b, t);
  }

  lemma {:induction false} ReadsDialogue(a: string, d: string, b: string, t: string)
    requires Blank(a) && Blank(b) && Lower(d) == Lower(DialoguePrefix) && TrimStart(t) == t
    ensures AfterPrefix(a + d + b + t) == Some(t)
  {
    StartsDialogue(d);
    var start := d + (b + t);
    assert a + d + b + t == a + start;
    TrimStartOfBlank(a, start);
    assert TrimStart(start) == start && start[..9] == d && start[9..] == b + t;
    TrimStartOfBlank(b, t);
  }

  // The line again with another text from the Text field on: the same front is cut off.
  lemma {:induction false} DialogueAgain(line: string, format: seq<string>, t: string)
    requires AfterPrefix(line).Some?
    requires var tail := line[BeforeText(line, format)..];
             (tail == "" <==> t == "") && (tail != "" ==> t[0] == tail[0])
    ensures var r := AfterPrefix(line).value;
            var k := LastStart(r, Position(format, "text") + 1);
            && line[BeforeText(line, format)..] == r[k..]
            && AfterPrefix(line[..BeforeText(line, format)] + t) == Some(r[..k] + t)
  {
    hide *;
    var r := AfterPrefix(line).value;
    var k := LastStart(r, Position(format, "text") + 1);
    BeforeTextIs(line, format);
    var front := DialogueFront(line);
    CutInside(front, r, k);
    SameStart(r, k, t);
    FrontReads(front, r[..k] + t);
    Assoc(front, r[..k], t);
  }

  lemma {:induction false} BeforeTextIs(line: string, format: seq<string>)
    requires AfterPrefix(line).Some?
    ensures var r := AfterPrefix(line).value;
            BeforeText(line, format) == |line| - (|r| - LastStart(r, Position(format, "text") + 1))
  {
    hide StripPrefixCi, TrimStart, LastStart, Position;
  }

  lemma CutInside(a: string, b: string, k: nat)
    requires k <= |b|
    ensures var s, n := a + b, |a| + k; s[..n] == a + b[..k] && s[n..] == b[k..]
  {
  }

  lemma {:induction false} SameStart(r: string, k: nat, t: string)
    requires k <= |r| && (r != "" ==> !IsWhitespace(r[0]))
    requires (r[k..] == "" <==> t == "") && (r[k..] != "" ==> t[0] == r[k..][0])
    ensures TrimStart(r[..k] + t) == r[..k] + t
  {
    if k > 0 {
      assert (r[..k] + t)[0] == r[0];
    } else {
      assert r[0..] == r;
      assert r[..0] + t == t;
    }
  }

  function StyleName(s: Script, line: string): string
    requires StripPrefixCi(TrimStart(line), DialoguePrefix).Some?
  {
    var fields := SplitFields(TrimStart(StripPrefixCi(TrimStart(line), DialoguePrefix).value), |s.eventFormat|);
    var k := Position(s.eventFormat, "style");
    if k < |fields| then Trim(fields[k]) else ""
  }

  // No `\fn` argument that starts in the first `c` characters runs past them.
  predicate Closes(s: string, c: nat)
    requires c <= |s|
  {
    forall i :: 0 <= i < c && IsFnTag(s[i..]) ==> i + MatchLen(s[i..]) <= c
  }

  // In the rest of a line, the tags of the first field end in it, and nothing is renamed after it.
  predicate FieldAlone(tail: string, m: Renaming) {
    var c := FindChar(tail, ',');
    Closes(tail, c) && NoHits(tail[c..], |tail| - c, m)
  }

  // The conditions on a dialogue line: nothing is renamed before or after its Text field, no tag
  // argument runs out of it, and its style is defined unless the fallback font keeps its name.
  predicate GoodDialogue(s: Script, line: string, text: string, m: Renaming)
    requires StripPrefixCi(TrimStart(line), DialoguePrefix).Some?
  {
    && NoHits(line, BeforeText(line, s.eventFormat), m)
    && (Position(s.eventFormat, "text") < |s.eventFormat| - 1 ==> FieldAlone(line[BeforeText(line, s.eventFormat)..], m))
    && GoodText(text, m)
    && (StyleName(s, line) in s.styles || LookupName("Arial") !in m)
  }

  lemma {:induction false} RewriteCut(s: string, c: nat, m: Renaming)
    requires c <= |s| && Closes(s, c) && (c < |s| ==> s[c] == ',')
    ensures RewriteFnTags(s, m) == RewriteFnTags(s[..c], m) + RewriteFnTags(s[c..], m)
    decreases c
  {
    hide *;
    if c == 0 {
      EmptyFront(s, m);
    } else {
      var n := MatchLen(s);
      FirstCloses(s, c);
      CutMatch(s, c, m);
      ClosesLater(s, n, c);
      Slices(s, n, c);
      RewriteCut(s[n..], c - n, m);
      RewriteStep(s, m);
      RewriteStep(s[..c], m);
      Assoc(MatchOut(s, m), RewriteFnTags(s[..c][n..], m), RewriteFnTags(s[c..], m));
    }
  }

  lemma {:induction false} EmptyFront(s: string, m: Renaming)
    ensures RewriteFnTags(s, m) == RewriteFnTags(s[..0], m) + RewriteFnTags(s[0..], m)
  {
    assert s[0..] == s && s[..0] == "" && RewriteFnTags("", m) == "";
    hide RewriteFnTags;
    assert "" + RewriteFnTags(s, m) == RewriteFnTags(s, m);
  }

  lemma Slices(s: string, n: nat, c: nat)
    requires n <= c <= |s|
    ensures s[n..][..c - n] == s[..c][n..] && s[n..][c - n..] == s[c..] && (c < |s| ==> s[n..][c - n] == s[c])
  {
  }

  lemma FirstCloses(s: string, c: nat)
    requires 0 < c <= |s| && Closes(s, c)
    ensures IsFnTag(s) ==> MatchLen(s) <= c
  {
    assert s[0..] == s;
  }

  // The first match is the same in the cut text.
  lemma {:induction false} CutMatch(s: string, c: nat, m: Renaming)
    requires 0 < c <= |s| && (c < |s| ==> s[c] == ',') && (IsFnTag(s) ==> MatchLen(s) <= c)
    ensures MatchLen(s) <= c && MatchLen(s[..c]) == MatchLen(s) && MatchOut(s[..c], m) == MatchOut(s, m)
  {
    var t := s[..c];
    if IsFnTag(s) {
      FnParts(s);
      var arg, n := FnArg(s), MatchLen(s);
      assert t == FN + arg + t[n..] by { assert s[..n] == FN + arg; }
      assert t[n..] != "" ==> t[n..][0] == s[n..][0];
      MatchTag(arg, t[n..]);
    } else {
      assert !IsFnTag(t);
    }
  }

  lemma ClosesLater(s: string, n: nat, c: nat)
    requires n <= c <= |s| && Closes(s, c)
    ensures Closes(s[n..], c - n)
  {
    forall i | 0 <= i < c - n && IsFnTag(s[n..][i..])
      ensures i + MatchLen(s[n..][i..]) <= c - n
    {
      assert s[n..][i..] == s[n + i..];
    }
  }

  // What stands after the Text field is written as it was.
  lemma {:induction false} FieldRewritten(tail: string, m: Renaming) returns (x: string, after: string)
    requires CleanNames(m) && FieldAlone(tail, m)
    ensures x == tail[..FindChar(tail, ',')] && tail == x + after && RewriteFnTags(tail, m) == RewriteFnTags(x, m) + after
    ensures ',' !in x && ',' !in RewriteFnTags(x, m) && (after != "" ==> after[0] == ',')
  {
    hide *;
    var c := FieldEnd(tail, m);
    x, after := tail[..c], tail[c..];
    NoComma(x, m);
    RewriteCut(tail, c, m);
    NothingRenamed(after, m);
  }

  lemma FieldEnd(tail: string, m: Renaming) returns (c: nat)
    requires FieldAlone(tail, m)
    ensures c == FindChar(tail, ',') && c <= |tail| && Closes(tail, c) && (c < |tail| ==> tail[c] == ',')
    ensures ',' !in tail[..c] && NoHits(tail[c..], |tail[c..]|, m)
  {
    c := FindChar(tail, ',');
    FindCharFirst(tail, ',');
  }

  lemma {:induction false} NoComma(x: string, m: Renaming)
    requires CleanNames(m) && ',' !in x
    ensures ',' !in RewriteFnTags(x, m)
  {
    if ',' in RewriteFnTags(x, m) {
      RewriteChars(x, m, ',');
    }
  }

  lemma {:induction false} NothingRenamed(s: string, m: Renaming)
    requires NoHits(s, |s|, m)
    ensures RewriteFnTags(s, m) == s
  {
    RewriteSkips(s, |s|, m);
    assert s[|s|..] == "" && RewriteFnTags("", m) == "" && s[..|s|] + "" == s;
  }

  // A first field with something after it, read again with another first field.
  lemma {:induction false} FirstField(x: string, after: string, n: nat)
    requires n > 1 && ',' !in x && (after != "" ==> after[0] == ',')
    ensures SplitFields(x + after, n) == [Trim(x)] + if after == "" then SplitFields("", n - 1) else SplitFields(after[1..], n - 1)
  {
    hide Trim;
    if after == "" {
      assert x + after == x;
      SplitFieldsNoComma(x, n);
    } else {
      assert x + after == x + "," + after[1..];
      SplitFieldsComma(x, after[1..], n);
    }
  }

  // The fields from the Text field on: only the first of them is renamed.
  lemma {:induction false} TailKept(tail: string, n: nat, m: Renaming)
    requires CleanNames(m) && n >= 1 && (n > 1 ==> FieldAlone(tail, m))
    ensures SplitFields(RewriteFnTags(tail, m), n) == SplitFields(tail, n)[0 := RewriteFnTags(SplitFields(tail, n)[0], m)]
  {
    if n == 1 {
      RewriteTrim(tail, m);
      hide RewriteFnTags, Trim;
    } else {
      var x, after := FieldRewritten(tail, m);
      hide *;
      RewriteTrim(x, m);
      FirstField(x, after, n);
      FirstField(RewriteFnTags(x, m), after, n);
      FieldCount(tail, n);
      FirstUpdated(Trim(x), RewriteFnTags(Trim(x), m), if after == "" then SplitFields("", n - 1) else SplitFields(after[1..], n - 1));
    }
  }

  lemma FirstUpdated(a: string, b: string, rest: seq<string>)
    ensures ([a] + rest)[0] == a && ([a] + rest)[0 := b] == [b] + rest
  {
  }

  lemma {:induction false} FieldsKept(line: string, format: seq<string>, m: Renaming)
    requires CleanNames(m) && Position(format, "text") < |format| && StripPrefixCi(TrimStart(line), DialoguePrefix).Some?
    requires NoHits(line, BeforeText(line, format), m)
    requires Position(format, "text") < |format| - 1 ==> FieldAlone(line[BeforeText(line, format)..], m)
    ensures var line' := RewriteFnTags(line, m);
            var k := Position(format, "text");
            var fields := SplitFields(TrimStart(StripPrefixCi(TrimStart(line), DialoguePrefix).value), |format|);
            var again := StripPrefixCi(TrimStart(line'), DialoguePrefix);
            && again.Some?
            && SplitFields(TrimStart(again.value), |format|) == fields[k := RewriteFnTags(fields[k], m)]
  {
    hide NoHits, BeforeText, LastStart, SplitFields, RewriteFnTags, Trim, TrimStart, StripPrefixCi, CleanNames, FieldAlone, Position;
    var n, k := BeforeText(line, format), Position(format, "text");
    var tail := line[n..];
    var t := RewriteFnTags(tail, m);
    RewriteSkips(line, n, m);
    RewriteKeepsFirst(tail, m);
    DialogueAgain(line, format, t);
    var r := TrimStart(StripPrefixCi(TrimStart(line), DialoguePrefix).value);
    ReplaceFrom(r, k, |format|, t);
    TailKept(tail, |format| - k, m);
    var fields, rest := SplitFields(r, |format|), SplitFields(tail, |format| - k);
    assert fields[k] == rest[0];
    assert fields[..k] + rest[0 := RewriteFnTags(rest[0], m)] == fields[k := RewriteFnTags(rest[0], m)];
  }

  lemma {:induction false} StyleIsNotText(format: seq<string>)
    ensures Position(format, "style") < |format| ==> Position(format, "style") != Position(format, "text")
  {
  }

  // A dialogue line reads as the renamed Text field against the renamed styles.
  lemma {:induction false} DialogueKept(s: Script, s': Script, line: string, m: Renaming)
    requires GoodNames(m) && s'.eventFormat == s.eventFormat && s'.styles == RenamedStyles(s.styles, m)
    requires DialogueOf(s, line).Some? && GoodDialogue(s, line, DialogueOf(s, line).value.0, m)
    ensures var (text, g) := DialogueOf(s, line).value;
            DialogueOf(s', RewriteFnTags(line, m)) == Some((RewriteFnTags(text, m), RenamedGround(g, m)))
  {
    hide *;
    var n, k := |s.eventFormat|, Position(s.eventFormat, "style");
    var fields, fields' := FieldsOf(s, line), FieldsOf(s', RewriteFnTags(line, m));
    GoodDialogueFacts(s, line, m);
    DialogueIs(s, line);
    FieldsOfKept(s, s', line, m);
    DialogueIs(s', RewriteFnTags(line, m));
    BaseKept(s, s', fields, fields', k, m);
    GroundIs(s, BaseStyle(s.styles, fields, k), m);
  }

  lemma GroundIs(s: Script, base: StyleInfo, m: Renaming)
    ensures RenamedGround(Ground(base, s.styles), m) == Ground(RenamedStyle(base, m), RenamedStyles(s.styles, m))
  {
  }

  lemma {:induction false} GoodDialogueFacts(s: Script, line: string, m: Renaming)
    requires GoodNames(m) && DialogueOf(s, line).Some? && GoodDialogue(s, line, DialogueOf(s, line).value.0, m)
    ensures var n, k := |s.eventFormat|, Position(s.eventFormat, "style");
            var i := Position(s.eventFormat, "text");
            && i < n && k < n && k != i
            && CleanNames(m) && StripPrefixCi(TrimStart(line), DialoguePrefix).Some?
            && NoHits(line, BeforeText(line, s.eventFormat), m)
            && (i < n - 1 ==> FieldAlone(line[BeforeText(line, s.eventFormat)..], m))
            && NormalStyleName(s, FieldsOf(s, line), k, m)
  {
    StyleIsNotText(s.eventFormat);
    hide NoHits, BeforeText, SplitFields, Trim, TrimStart, StripPrefixCi, GoodText, LookupName, Position, CleanNames, BaseStyle, FieldAlone;
  }

  lemma {:induction false} FieldsOfKept(s: Script, s': Script, line: string, m: Renaming)
    requires s'.eventFormat == s.eventFormat && CleanNames(m) && Position(s.eventFormat, "text") < |s.eventFormat|
    requires StripPrefixCi(TrimStart(line), DialoguePrefix).Some? && NoHits(line, BeforeText(line, s.eventFormat), m)
    requires Position(s.eventFormat, "text") < |s.eventFormat| - 1 ==> FieldAlone(line[BeforeText(line, s.eventFormat)..], m)
    ensures var i, line' := Position(s.eventFormat, "text"), RewriteFnTags(line, m);
            var fields := FieldsOf(s, line);
            && StripPrefixCi(TrimStart(line'), DialoguePrefix).Some?
            && |fields| == |s.eventFormat| && FieldsOf(s', line') == fields[i := RewriteFnTags(fields[i], m)]
  {
    hide NoHits, BeforeText, SplitFields, RewriteFnTags, TrimStart, StripPrefixCi, CleanNames, FieldAlone, Position;
    FieldsKept(line, s.eventFormat, m);
  }

  predicate NormalStyleName(s: Script, fields: seq<string>, k: nat, m: Renaming) {
    k < |fields| && (Trim(fields[k]) in s.styles || LookupName("Arial") !in m)
  }

  function FieldsOf(s: Script, line: string): seq<string> {
    match StripPrefixCi(TrimStart(line), DialoguePrefix)
    case None => []
    case Some(rest) => SplitFields(TrimStart(rest), |s.eventFormat|)
  }

  lemma {:induction false} DialogueIs(s: Script, line: string)
    ensures var k, n := Position(s.eventFormat, "style"), Position(s.eventFormat, "text");
            var fields := FieldsOf(s, line);
            if StripPrefixCi(TrimStart(line), DialoguePrefix).Some? && k < |s.eventFormat| && n < |s.eventFormat| then
              |fields| == |s.eventFormat| && DialogueOf(s, line) == Some((fields[n], Ground(BaseStyle(s.styles, fields, k), s.styles)))
            else DialogueOf(s, line) == None
  {
    hide Position, StripPrefixCi, TrimStart, BaseStyle;
  }

  // The renamed base style is the base style the renamed script reads.
  lemma BaseKept(s: Script, s': Script, fields: seq<string>, fields': seq<string>, k: nat, m: Renaming)
    requires s'.styles == RenamedStyles(s.styles, m) && k < |fields| == |fields'| && fields'[k] == fields[k]
    requires NormalStyleName(s, fields, k, m)
    ensures BaseStyle(s'.styles, fields', k) == RenamedStyle(BaseStyle(s.styles, fields, k), m)
  {
    hide Trim, LookupName;
  }

  // ----- Style lines -----

  const StylePrefix := "Style:"

  // The fields of a `Style:` line as the interpreter splits them.
  function ReadStyle(line: string, n: nat): seq<string>
    requires StripPrefixCi(Trim(line), StylePrefix).Some?
  {
    SplitFields(Trim(StripPrefixCi(Trim(line), StylePrefix).value), n)
  }

  lemma {:induction false} TrimmedStart(y: string, b: string)
    requires y != "" && !IsWhitespace(y[0]) && !IsWhitespace(y[|y| - 1])
    ensures TrimEnd(y) == y && TrimStart(y + b) == y + b
  {
  }

  lemma {:induction false} TrimOfEnd(rest: string, b: string)
    requires Blank(b) && (rest != "" ==> !IsWhitespace(rest[|rest| - 1]))
    ensures Trim(rest) == TrimStart(rest)
    ensures TrimStart(rest + b) == (if TrimStart(rest) == "" then "" else TrimStart(rest) + b)
  {
    var a := TrimStartFacts(rest);
    var y := TrimStart(rest);
    Assoc(a, y, b);
    TrimStartOfBlank(a, y + b);
    if y == "" {
      assert y + b == b && b + "" == b;
      TrimStartOfBlank(b, "");
    } else {
      hide TrimStart, TrimEnd;
      assert y[|y| - 1] == rest[|rest| - 1];
      TrimmedStart(y, b);
    }
  }

  lemma StyleParts(line: string) returns (b: string)
    requires StripPrefixCi(Trim(line), StylePrefix).Some?
    ensures var rest := StripPrefixCi(Trim(line), StylePrefix).value;
            && Blank(b) && StripPrefixCi(TrimStart(line), StylePrefix) == Some(rest + b)
            && (rest != "" ==> !IsWhitespace(rest[|rest| - 1]))
  {
    var a;
    a, b := TrimSplits(line);
    var t := Trim(line);
    assert t != "";
    assert TrimStart(line) == t + b by {
      hide Trim;
      Assoc(a, t, b);
      TrimStartOfBlank(a, t + b);
      assert (t + b)[0] == t[0];
    }
    hide Trim, TrimStart;
    var rest := t[6..];
    assert StripPrefixCi(t, StylePrefix) == Some(rest);
    assert (t + b)[..6] == t[..6] && (t + b)[6..] == rest + b;
    assert rest != "" ==> rest[|rest| - 1] == t[|t| - 1];
  }

  lemma SameStyle(line: string, format: seq<string>)
    requires StripPrefixCi(Trim(line), StylePrefix).Some?
    ensures StyleFields(line, format).Some?
    ensures StyleFields(line, format).value.1 == ReadStyle(line, StyleFieldCount(format))
  {
    var b := StyleParts(line);
    var rest := StripPrefixCi(Trim(line), StylePrefix).value;
    hide Trim, TrimStart, SplitFields, StripPrefixCi, Blank;
    TrimOfEnd(rest, b);
    SplitFieldsBlankEnd(TrimStart(rest), b, StyleFieldCount(format));
  }

  // No other column of the format is read from where the font name stands.
  predicate DistinctColumns(format: seq<string>) {
    var k := FontIndex(format);
    && NameIndex(format) != k
    && (Position(format, "bold") < |format| ==> Position(format, "bold") != k)
    && (Position(format, "italic") < |format| ==> Position(format, "italic") != k)
  }

  // The conditions on the fields of a `Style:` line.
  predicate GoodFields(fields: seq<string>, format: seq<string>, m: Renaming)
    requires FontIndex(format) < |fields|
  {
    var f := fields[FontIndex(format)];
    var x, key := NormFont(f), LookupName(f);
    && (key in m ==> DistinctColumns(format))
    && if x == "" then key !in m
       else Settled(x, m) && (LookupName(x) in m || key in m ==> LookupName(x) == key)
  }

  lemma RenamedField(fields: seq<string>, format: seq<string>, m: Renaming)
    requires GoodNames(m) && FontIndex(format) < |fields| && CleanFields(fields) && GoodFields(fields, format, m)
    ensures var k := FontIndex(format);
            var name := Renamed(m, fields[k]);
            NormFont(Trim(name)) == if NormFont(fields[k]) == "" then "" else Renamed(m, NormFont(fields[k]))
  {
    var k := FontIndex(format);
    var key := LookupName(fields[k]);
    TrimOfTrimmed(fields[k]);
    if key in m {
      NormFontOfClean(m[key]);
      TrimOfTrimmed(m[key]);
    }
    hide Trim, TrimAts, Lower;
  }

  lemma StyleOfKept(fields: seq<string>, format: seq<string>, m: Renaming)
    requires GoodNames(m) && FontIndex(format) < |fields| && CleanFields(fields) && GoodFields(fields, format, m)
    ensures var k := FontIndex(format);
            var style, style' := StyleOf(format, fields), StyleOf(format, fields[k := Renamed(m, fields[k])]);
            match style
            case None => style' == None
            case Some((name, st)) => style' == Some((name, RenamedStyle(st, m))) && Settled(st.font, m)
  {
    var k := FontIndex(format);
    var v := Renamed(m, fields[k]);
    var fields' := fields[k := v];
    RenamedField(fields, format, m);
    TrimOfTrimmed(fields[k]);
    if v == fields[k] {
      assert fields' == fields;
    } else {
      ColumnsKept(fields, format, v);
    }
    NewNameNotEmpty(NormFont(fields[k]), m);
    hide Trim, NormFont, LookupName, Boolish, FontIndex, BoolField, NameIndex, DistinctColumns, GoodNames, Renamed;
    assert fields'[k] == v && |fields'| == |fields|;
  }

  lemma NewNameNotEmpty(font: string, m: Renaming)
    requires GoodNames(m)
    ensures font != "" ==> Renamed(m, font) != ""
  {
  }

  lemma RenamedInsert(styles: Styles, name: string, style: StyleInfo, m: Renaming)
    ensures RenamedStyles(styles[name := style], m) == RenamedStyles(styles, m)[name := RenamedStyle(style, m)]
  {
    hide Renamed;
  }

  // The renamed fields define the renamed style.
  lemma DefineKept(styles: Styles, fields: seq<string>, format: seq<string>, m: Renaming)
    requires GoodNames(m) && FontIndex(format) < |fields| && CleanFields(fields) && GoodFields(fields, format, m)
    requires SettledStyles(styles, m)
    ensures var k := FontIndex(format);
            && DefineStyle(RenamedStyles(styles, m), format, fields[k := Renamed(m, fields[k])])
               == RenamedStyles(DefineStyle(styles, format, fields), m)
            && SettledStyles(DefineStyle(styles, format, fields), m)
  {
    StyleOfKept(fields, format, m);
    hide StyleOf, FontIndex, GoodNames, GoodFields, Settled, RenamedStyles, RenamedStyle, CleanFields;
    match StyleOf(format, fields)
    case None =>
    case Some((name, style)) => RenamedInsert(styles, name, style, m);
  }

  lemma ColumnsKept(fields: seq<string>, format: seq<string>, v: string)
    requires FontIndex(format) < |fields| && DistinctColumns(format)
    ensures var fields' := fields[FontIndex(format) := v];
            && BoolField(format, fields', "bold") == BoolField(format, fields, "bold")
            && BoolField(format, fields', "italic") == BoolField(format, fields, "italic")
            && (NameIndex(format) < |fields| ==> fields'[NameIndex(format)] == fields[NameIndex(format)])
  {
    hide Boolish, Position;
  }
}
