/**
  Text primitives the subtitle code takes from Rust's standard library: white space, trimming,
  ASCII case folding, line splitting and joining, and the field splitter of the ASS format.
  Slicing happens at ASCII delimiters only, so positions are counted in characters. Lines end at
  a line feed, and carriage returns in front of it are dropped.
*/
module Text {

  datatype Option<+T> = None | Some(value: T)

  // Unicode White_Space, as `char::is_whitespace` decides it.
  predicate IsWhitespace(c: char) {
    || '\U{0009}' <= c <= '\U{000D}' || c == ' ' || c == '\U{0085}' || c == '\U{00A0}'
    || c == '\U{1680}' || '\U{2000}' <= c <= '\U{200A}' || c == '\U{2028}' || c == '\U{2029}'
    || c == '\U{202F}' || c == '\U{205F}' || c == '\U{3000}'
  }

  // Unicode general category Cc.
  predicate IsControl(c: char) {
    c <= '\U{001F}' || '\U{007F}' <= c <= '\U{009F}'
  }

  function TrimStart(s: string): (r: string)
    ensures |r| <= |s|
  {
    if |s| > 0 && IsWhitespace(s[0]) then TrimStart(s[1..]) else s
  }

  function TrimEnd(s: string): (r: string)
    ensures |r| <= |s|
  {
    if |s| > 0 && IsWhitespace(s[|s| - 1]) then TrimEnd(s[..|s| - 1]) else s
  }

  function Trim(s: string): string {
    TrimEnd(TrimStart(s))
  }

  predicate Trimmed(s: string) {
    |s| > 0 ==> !IsWhitespace(s[0]) && !IsWhitespace(s[|s| - 1])
  }

  predicate Blank(s: string) {
    forall i :: 0 <= i < |s| ==> IsWhitespace(s[i])
  }

  function LowerChar(c: char): char {
    if 'A' <= c <= 'Z' then c - 'A' + 'a' else c
  }

  function Lower(s: string): (r: string)
    ensures |r| == |s| && forall i :: 0 <= i < |s| ==> r[i] == LowerChar(s[i])
  {
    seq(|s|, i requires 0 <= i < |s| => LowerChar(s[i]))
  }

  predicate StartsWith(s: string, p: string) {
    |p| <= |s| && s[..|p|] == p
  }

  // `strip_prefix_ci`: the prefix is ASCII, so a byte-wise and a character-wise comparison agree.
  function StripPrefixCi(s: string, prefix: string): Option<string> {
    if |prefix| <= |s| && Lower(s[..|prefix|]) == Lower(prefix) then Some(s[|prefix|..]) else None
  }

  // The index of the first `c`, or the length when there is none.
  function FindChar(s: string, c: char): (k: nat)
    ensures k <= |s|
    ensures k < |s| ==> s[k] == c
  {
    if |s| == 0 || s[0] == c then 0 else 1 + FindChar(s[1..], c)
  }

  // A line that is `[...]` once trimmed, without its brackets.
  function SectionHeader(line: string): Option<string> {
    if |line| >= 2 && line[0] == '[' && line[|line| - 1] == ']' then Some(line[1..|line| - 1]) else None
  }

  predicate Contains(s: string, p: string) {
    exists i :: 0 <= i <= |s| && StartsWith(s[i..], p)
  }

  function Split(s: string, c: char): (r: seq<string>)
    ensures |r| > 0
    decreases |s|
  {
    var k := FindChar(s, c);
    if k == |s| then [s] else [s[..k]] + Split(s[k + 1..], c)
  }

  // The comma separated names of a `Format:` line, trimmed and in lower case.
  function FormatFields(rest: string): (r: seq<string>) {
    TrimLowerAll(Split(rest, ','))
  }

  function TrimLowerAll(parts: seq<string>): (r: seq<string>)
    ensures |r| == |parts|
  {
    if parts == [] then [] else [Lower(Trim(parts[0]))] + TrimLowerAll(parts[1..])
  }

  // `position`: the first index of `name`, or the length when it is absent.
  function Position(names: seq<string>, name: string): (k: nat)
    ensures k <= |names|
    ensures k < |names| ==> names[k] == name
    ensures forall i :: 0 <= i < k ==> names[i] != name
  {
    if names == [] || names[0] == name then 0 else 1 + Position(names[1..], name)
  }

  function Join(parts: seq<string>, sep: string): string {
    if parts == [] then "" else if |parts| == 1 then parts[0] else parts[0] + sep + Join(parts[1..], sep)
  }

  lemma Assoc(a: string, b: string, c: string)
    ensures a + b + c == a + (b + c)
  {
  }

  lemma AssocSeq<T>(a: seq<T>, b: seq<T>, c: seq<T>)
    ensures a + b + c == a + (b + c)
  {
  }

  // ----- Fields -----

  function SplitFields(s: string, expected: nat): (fields: seq<string>)
    ensures |fields| == expected
    decreases expected
  {
    if expected == 0 then []
    else if expected == 1 then [Trim(s)]
    else
      var k := FindChar(s, ',');
      if k == |s| then [Trim(s)] + SplitFields("", expected - 1)
      else [Trim(s[..k])] + SplitFields(s[k + 1..], expected - 1)
  }

  // What one round of the splitting loop takes off the rest, and what it leaves.
  function FieldStep(rest: string): (r: (string, string)) {
    var k := FindChar(rest, ',');
    if k < |rest| then (Trim(rest[..k]), rest[k + 1..]) else (Trim(rest), "")
  }

  // `split_ass_fields` as the loop the source runs: all but the last field end at a comma.
  method SplitAssFields(s: string, expected: nat) returns (fields: seq<string>)
    ensures fields == SplitFields(s, expected)
  {
    hide Trim, FindChar;
    if expected == 0 {
      return [];
    }
    fields := [];
    var rest := s;
    var i := 0;
    while i < expected - 1
      invariant 0 <= i <= expected - 1
      invariant fields + SplitFields(rest, expected - i) == SplitFields(s, expected)
    {
      SplitFieldsStep(fields, rest, expected - i);
      hide SplitFields;
      var k := FindChar(rest, ',');
      if k < |rest| {
        fields := fields + [Trim(rest[..k])];
        rest := rest[k + 1..];
      } else {
        fields := fields + [Trim(rest)];
        rest := "";
      }
      i := i + 1;
    }
    fields := fields + [Trim(rest)];
  }

  lemma SplitFieldsStep(done: seq<string>, rest: string, n: nat)
    requires n > 1
    ensures done + SplitFields(rest, n) == done + [FieldStep(rest).0] + SplitFields(FieldStep(rest).1, n - 1)
  {
  }

  // Fields that survive being joined with commas and split again.
  predicate CleanFields(fields: seq<string>) {
    forall i :: 0 <= i < |fields| ==> Trimmed(fields[i]) && (i < |fields| - 1 ==> ',' !in fields[i])
  }

  lemma {:induction false} FindCharFirst(s: string, c: char)
    ensures c !in s[..FindChar(s, c)]
  {
    if |s| > 0 && s[0] != c {
      FindCharFirst(s[1..], c);
      assert s[..FindChar(s, c)] == [s[0]] + s[1..][..FindChar(s[1..], c)];
    }
  }

  // The converse: what follows a piece free of `c` decides where the first `c` is.
  lemma {:induction false} FindCharIs(a: string, c: char, b: string)
    requires c !in a && (|b| > 0 ==> b[0] == c)
    ensures FindChar(a + b, c) == |a|
  {
    if a == "" {
      assert a + b == b;
    } else {
      assert (a + b)[1..] == a[1..] + b;
      FindCharIs(a[1..], c, b);
    }
  }

  lemma {:induction false} TrimStartFacts(s: string) returns (a: string)
    ensures s == a + TrimStart(s) && Blank(a)
    ensures |TrimStart(s)| > 0 ==> !IsWhitespace(TrimStart(s)[0])
  {
    a := "";
    if |s| > 0 && IsWhitespace(s[0]) {
      a := TrimStartFacts(s[1..]);
      a := [s[0]] + a;
    }
  }

  lemma {:induction false} TrimEndFacts(s: string) returns (b: string)
    ensures s == TrimEnd(s) + b && Blank(b)
    ensures |TrimEnd(s)| > 0 ==> !IsWhitespace(TrimEnd(s)[|TrimEnd(s)| - 1])
  {
    b := "";
    if |s| > 0 && IsWhitespace(s[|s| - 1]) {
      b := TrimEndFacts(s[..|s| - 1]);
      b := b + [s[|s| - 1]];
    }
  }

  // Every string is blank, then its trimmed core, then blank.
  lemma TrimSplits(s: string) returns (a: string, b: string)
    ensures s == a + Trim(s) + b && Blank(a) && Blank(b) && Trimmed(Trim(s))
  {
    a := TrimStartFacts(s);
    b := TrimEndFacts(TrimStart(s));
    var t := Trim(s);
    if |t| > 0 {
      assert t[0] == TrimStart(s)[0];
    }
  }

  lemma {:induction false} TrimStartOfBlank(w: string, s: string)
    requires Blank(w)
    ensures TrimStart(w + s) == TrimStart(s)
  {
    if w != "" {
      assert (w + s)[0] == w[0] && (w + s)[1..] == w[1..] + s;
      TrimStartOfBlank(w[1..], s);
    } else {
      assert w + s == s;
    }
  }

  lemma {:induction false} TrimEndOfBlank(s: string, w: string)
    requires Blank(w)
    ensures TrimEnd(s + w) == TrimEnd(s)
  {
    if w != "" {
      assert (s + w)[|s + w| - 1] == w[|w| - 1] && (s + w)[..|s + w| - 1] == s + w[..|w| - 1];
      TrimEndOfBlank(s, w[..|w| - 1]);
    } else {
      assert s + w == s;
    }
  }

  /** The trimmed core is unique: whatever is trimmed and has blank text around it is it. */
  lemma TrimIs(a: string, t: string, b: string)
    requires Blank(a) && Blank(b) && Trimmed(t)
    ensures Trim(a + t + b) == t
  {
    assert a + t + b == a + (t + b);
    TrimStartOfBlank(a, t + b);
    if t == "" {
      assert t + b == b && b + "" == b;
      TrimStartOfBlank(b, "");
    } else {
      TrimEndOfBlank(t, b);
    }
  }

  lemma TrimOfTrimmed(t: string)
    requires Trimmed(t)
    ensures Trim(t) == t
  {
    assert "" + t + "" == t;
    TrimIs("", t, "");
  }

  lemma TrimAround(a: string, s: string, b: string)
    requires Blank(a) && Blank(b)
    ensures Trim(a + s + b) == Trim(s)
  {
    var x, y := TrimSplits(s);
    assert a + s + b == (a + x) + Trim(s) + (y + b);
    TrimIs(a + x, Trim(s), y + b);
  }

  lemma {:induction false} SplitFieldsClean(s: string, n: nat)
    ensures CleanFields(SplitFields(s, n))
    decreases n
  {
    if n == 1 {
      var a, b := TrimSplits(s);
    } else if n > 1 {
      var k := FindChar(s, ',');
      var head, rest := s[..k], if k == |s| then "" else s[k + 1..];
      assert s[..|s|] == s;
      FindCharFirst(s, ',');
      var a, b := TrimSplits(head);
      SplitFieldsClean(rest, n - 1);
      assert SplitFields(s, n) == [Trim(head)] + SplitFields(rest, n - 1);
      assert ',' !in Trim(head) by {
        assert forall c :: c in Trim(head) ==> c in a + Trim(head) + b;
      }
    }
  }

  lemma SplitFieldsUnfold(s: string, n: nat)
    requires n > 1
    ensures SplitFields(s, n) == [FieldStep(s).0] + SplitFields(FieldStep(s).1, n - 1)
  {
  }

  lemma TrimChars(s: string, c: char)
    ensures c !in s ==> c !in Trim(s)
  {
    var a, b := TrimSplits(s);
    hide Trim;
    assert forall x :: x in Trim(s) ==> x in a + Trim(s) + b;
  }

  lemma FieldStepChars(s: string, c: char)
    requires c !in s
    ensures c !in FieldStep(s).0 && c !in FieldStep(s).1
  {
    var k := FindChar(s, ',');
    TrimChars(s, c);
    hide Trim;
    if k < |s| {
      TrimChars(s[..k], c);
      assert forall x :: x in s[..k] ==> x in s;
    }
  }

  // A character a text lacks is in none of its fields.
  lemma {:induction false} SplitFieldsChars(s: string, n: nat, c: char)
    requires c !in s
    ensures forall i :: 0 <= i < n ==> c !in SplitFields(s, n)[i]
    decreases n
  {
    if n == 1 {
      TrimChars(s, c);
    } else if n > 1 {
      SplitFieldsUnfold(s, n);
      FieldStepChars(s, c);
      hide SplitFields, FieldStep;
      SplitFieldsChars(FieldStep(s).1, n - 1, c);
    }
  }

  lemma {:induction false} SplitFieldsComma(head: string, tail: string, n: nat)
    requires n > 1 && ',' !in head
    ensures SplitFields(head + "," + tail, n) == [Trim(head)] + SplitFields(tail, n - 1)
  {
    hide Trim;
    var s := head + "," + tail;
    assert s == head + ("," + tail);
    FindCharIs(head, ',', "," + tail);
    assert s[..|head|] == head && s[|head| + 1..] == tail;
  }

  lemma SplitFieldsNoComma(s: string, n: nat)
    requires n > 1 && ',' !in s
    ensures SplitFields(s, n) == [Trim(s)] + SplitFields("", n - 1)
  {
    hide Trim;
    assert s + "" == s;
    FindCharIs(s, ',', "");
  }

  /** Splitting undoes joining for fields that are trimmed and, except the last, free of commas. */
  lemma {:induction false} SplitJoin(fields: seq<string>)
    requires |fields| >= 1 && CleanFields(fields)
    ensures SplitFields(Join(fields, ","), |fields|) == fields
    decreases |fields|
  {
    TrimOfTrimmed(fields[0]);
    hide Trim;
    if |fields| > 1 {
      SplitFieldsComma(fields[0], Join(fields[1..], ","), |fields|);
      hide SplitFields;
      SplitJoin(fields[1..]);
      assert fields == [fields[0]] + fields[1..];
    }
  }

  // Blank text after the last field is trimmed away with it.
  lemma {:induction false} SplitFieldsBlankEnd(s: string, w: string, n: nat)
    requires Blank(w)
    ensures SplitFields(s + w, n) == SplitFields(s, n)
    decreases n
  {
    assert "" + s + w == s + w;
    TrimAround("", s, w);
    hide Trim;
    if n > 1 {
      var k := FindChar(s, ',');
      FindCharFirst(s, ',');
      if k < |s| {
        var head, tail := s[..k], s[k + 1..];
        assert s == head + "," + tail && s + w == head + "," + (tail + w);
        SplitFieldsComma(head, tail, n);
        SplitFieldsComma(head, tail + w, n);
        SplitFieldsBlankEnd(tail, w, n - 1);
      } else {
        assert s[..k] == s;
        SplitFieldsNoComma(s, n);
        SplitFieldsNoComma(s + w, n);
      }
    }
  }

  // ----- Lines -----

  function StripCr(s: string): (r: string)
    ensures |r| <= |s|
  {
    if |s| > 0 && s[|s| - 1] == '\r' then StripCr(s[..|s| - 1]) else s
  }

  // `text.lines()` with the trailing carriage returns of every line removed.
  function Lines(text: string): seq<string>
    decreases |text|
  {
    if text == "" then []
    else
      var k := FindChar(text, '\n');
      if k == |text| then [StripCr(text)] else [StripCr(text[..k])] + Lines(text[k + 1..])
  }

  predicate EndsWithNewline(text: string) {
    |text| > 0 && text[|text| - 1] == '\n'
  }

  function DetectNewline(text: string): (nl: string)
    ensures nl == "\n" || nl == "\r\n"
  {
    if Contains(text, "\r\n") then "\r\n" else "\n"
  }

  // What every rewriting pass returns: the output lines joined, with the final newline kept.
  function Render(lines: seq<string>, newline: string, final: bool): string {
    Join(lines, newline) + (if final then newline else "")
  }

  predicate CleanLine(line: string) {
    '\n' !in line && (|line| > 0 ==> line[|line| - 1] != '\r')
  }

  predicate CleanLines(lines: seq<string>) {
    forall i :: 0 <= i < |lines| ==> CleanLine(lines[i])
  }

  predicate IsNewline(nl: string) {
    nl == "\n" || nl == "\r\n"
  }

  lemma {:induction false} StripCrFacts(s: string)
    ensures StripCr(s) <= s
    ensures |StripCr(s)| > 0 ==> StripCr(s)[|StripCr(s)| - 1] != '\r'
  {
    if |s| > 0 && s[|s| - 1] == '\r' {
      StripCrFacts(s[..|s| - 1]);
    }
  }

  lemma {:induction false} LinesAreClean(text: string)
    ensures CleanLines(Lines(text))
    decreases |text|
  {
    if text != "" {
      var k := FindChar(text, '\n');
      FindCharFirst(text, '\n');
      StripCrFacts(text[..k]);
      var line := StripCr(text[..k]);
      assert text[..|text|] == text;
      assert CleanLine(line) by {
        assert forall c :: c in line ==> c in text[..k];
      }
      if k < |text| {
        LinesAreClean(text[k + 1..]);
      }
    }
  }

  // The first line of a text that goes on after a newline.
  lemma {:induction false} LinesStep(line: string, nl: string, rest: string)
    requires CleanLine(line) && IsNewline(nl)
    ensures Lines(line + nl + rest) == [line] + Lines(rest)
  {
    var cr := nl[..|nl| - 1];
    assert cr == "" || cr == "\r";
    var head := line + cr;
    var text := line + nl + rest;
    assert text == head + ("\n" + rest);
    FindCharIs(head, '\n', "\n" + rest);
    assert text[..|head|] == head && text[|head| + 1..] == rest;
    assert head[..|line|] == line;
    assert StripCr(head) == line;
  }

  lemma {:induction false} LinesOfOne(line: string)
    requires CleanLine(line)
    ensures Lines(line) == if line == "" then [] else [line]
  {
    assert line + "" == line;
    FindCharIs(line, '\n', "");
  }

  lemma RenderCons(lines: seq<string>, nl: string, final: bool)
    requires |lines| > 1
    ensures Render(lines, nl, final) == lines[0] + nl + Render(lines[1..], nl, final)
  {
  }

  /** Re-reading a rendered text gives its lines back, up to a final empty line. */
  lemma {:induction false} LinesRender(lines: seq<string>, nl: string, final: bool)
    requires CleanLines(lines) && IsNewline(nl) && |lines| > 0
    ensures Lines(Render(lines, nl, final)) ==
            if !final && lines[|lines| - 1] == "" then lines[..|lines| - 1] else lines
    decreases |lines|
  {
    if |lines| == 1 {
      assert lines == [lines[0]];
      if final {
        assert Render(lines, nl, final) == lines[0] + nl + "";
        LinesStep(lines[0], nl, "");
      } else {
        assert Render(lines, nl, final) == lines[0];
        LinesOfOne(lines[0]);
      }
    } else {
      hide Lines, Render;
      var rest := lines[1..];
      RenderCons(lines, nl, final);
      LinesStep(lines[0], nl, Render(rest, nl, final));
      LinesRender(rest, nl, final);
      assert lines == [lines[0]] + rest;
      assert lines[..|lines| - 1] == [lines[0]] + rest[..|rest| - 1];
    }
  }

  lemma {:induction false} LinesOfJoined(lines: seq<string>, nl: string)
    requires CleanLines(lines) && IsNewline(nl) && |lines| > 0 && lines[|lines| - 1] == ""
    ensures Lines(Join(lines, nl)) == lines[..|lines| - 1]
  {
    hide Lines, Join, CleanLines;
    LinesRender(lines, nl, false);
    assert Join(lines, nl) + "" == Join(lines, nl);
  }

  lemma RenderEnding(lines: seq<string>, nl: string, final: bool)
    requires CleanLines(lines) && IsNewline(nl) && |lines| > 0
    requires !final ==> lines[|lines| - 1] != ""
    ensures EndsWithNewline(Render(lines, nl, final)) == final
    decreases |lines|
  {
    if |lines| > 1 {
      RenderEnding(lines[1..], nl, final);
    }
  }

  lemma ContainsAt(text: string, i: nat, p: string)
    requires i + |p| <= |text| && text[i..i + |p|] == p
    ensures Contains(text, p)
  {
    assert text[i..][..|p|] == text[i..i + |p|];
    assert StartsWith(text[i..], p);
  }

  lemma {:induction false} NoCrLf(lines: seq<string>, final: bool, i: nat)
    requires CleanLines(lines) && i + 1 < |Render(lines, "\n", final)|
    ensures !(Render(lines, "\n", final)[i] == '\r' && Render(lines, "\n", final)[i + 1] == '\n')
    decreases |lines|
  {
    var text := Render(lines, "\n", final);
    if |lines| >= 1 {
      var line, n := lines[0], |lines[0]|;
      assert CleanLine(line);
      if |lines| == 1 {
        assert text == line + (if final then "\n" else "");
      } else {
        RenderCons(lines, "\n", final);
        var rest := Render(lines[1..], "\n", final);
        assert text == line + "\n" + rest;
        if i > n {
          NoCrLf(lines[1..], final, i - n - 1);
        }
      }
    }
  }

  /** A rendered text of two or more lines uses the newline it was rendered with. */
  lemma DetectRendered(lines: seq<string>, nl: string, final: bool)
    requires CleanLines(lines) && IsNewline(nl) && |lines| >= 2
    ensures DetectNewline(Render(lines, nl, final)) == nl
  {
    var text := Render(lines, nl, final);
    if nl == "\r\n" {
      RenderCons(lines, nl, final);
      hide Render;
      var n := |lines[0]|;
      assert text[n..n + 2] == nl;
      ContainsAt(text, n, nl);
    } else if Contains(text, "\r\n") {
      var i :| 0 <= i <= |text| && StartsWith(text[i..], "\r\n");
      assert text[i..][..2][0] == text[i] && text[i..][..2][1] == text[i + 1];
      NoCrLf(lines, final, i);
    }
  }
}
