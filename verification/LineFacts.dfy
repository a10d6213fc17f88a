/**
  What renaming does to one line of a script: which kind of line it stays. A renamed line must not
  turn into a header, a comment of the subset job, a `Format:` line or a line of another kind, and
  must stay one line; otherwise the second pass would take another branch than the first one did
  on the same line.
*/
module LineFacts {
  import opened Text
  import opened FontNames
  import opened Document

  // Renaming an event line never makes it a section header.
  lemma {:induction false} RewriteNoHeader(line: string, m: Renaming)
    requires CleanNames(m) && Header(line) == None
    ensures Header(RewriteFnTags(line, m)) == None
  {
    var t := Trim(line);
    var u := RewriteFnTags(t, m);
    RewriteTrim(line, m);
    hide Trim, Lower;
    if SectionHeader(u).Some? {
      RewriteKeepsFirst(t, m);
      RewriteLastChar(t, m);
    }
  }

  lemma PrefixOf(s: string, p: string)
    ensures StripPrefixCi(s, p).Some? <==> |p| <= |s| && Lower(s[..|p|]) == Lower(p)
  {
  }

  lemma CommentPrefixIsPlain(t: string)
    requires Lower(t) == Lower(CommentPrefix)
    ensures '\\' !in t
  {
    assert |t| == 14;
    assert forall i :: 0 <= i < 14 ==> LowerChar(CommentPrefix[i]) != '\\';
    assert forall i :: 0 <= i < 14 ==> LowerChar(t[i]) == Lower(t)[i] == LowerChar(CommentPrefix[i]);
    assert LowerChar('\\') == '\\';
  }

  // Nor a mapping comment.
  lemma {:induction false} RewriteNoComment(line: string, m: Renaming)
    requires CleanNames(m) && !IsComment(line)
    ensures !IsComment(RewriteFnTags(line, m))
  {
    var t := Trim(line);
    var u := RewriteFnTags(t, m);
    var n := |CommentPrefix|;
    RewriteTrim(line, m);
    hide Trim, RewriteFnTags;
    PrefixOf(t, CommentPrefix);
    PrefixOf(u, CommentPrefix);
    hide StripPrefixCi, Lower;
    if n <= |u| && Lower(u[..n]) == Lower(CommentPrefix) {
      CommentPrefixIsPlain(u[..n]);
      RewritePlainPrefix(t, m, n);
    }
  }

  lemma NoCommentIsNotRestored(line: string, r: Renaming)
    requires !IsComment(line)
    ensures !IsRestoredComment(line, r) && ParseComment(line) == None
  {
  }

  // The text at the front of a trimmed line.
  lemma {:induction false} TrimEndKeeps(p: string, s: string)
    requires p != "" && !IsWhitespace(p[|p| - 1])
    ensures |p| <= |TrimEnd(p + s)| && TrimEnd(p + s)[..|p|] == p
  {
    var b := TrimEndFacts(p + s);
    var e := TrimEnd(p + s);
    assert forall i :: |e| <= i < |p + s| ==> IsWhitespace((p + s)[i]) by {
      assert forall i :: |e| <= i < |p + s| ==> (p + s)[i] == b[i - |e|];
    }
    assert (p + s)[..|p|] == p;
  }

  lemma TrimKeepsStart(a: string, p: string, s: string)
    requires Blank(a) && p != "" && !IsWhitespace(p[0]) && !IsWhitespace(p[|p| - 1])
    ensures |p| <= |Trim(a + (p + s))| && Trim(a + (p + s))[..|p|] == p
  {
    TrimStartOfBlank(a, p + s);
    assert TrimStart(p + s) == p + s;
    TrimEndKeeps(p, s);
  }

  predicate StartsAs(line: string, p: string) {
    |p| <= |Trim(line)| && Trim(line)[..|p|] == p
  }

  lemma StyleLineStarts(lead: string, fields: seq<string>)
    requires Blank(lead)
    ensures StartsAs(StyleLine(lead, fields), "Style:")
  {
    var line := StyleLine(lead, fields);
    assert line == lead + ("Style:" + (" " + Join(fields, ",")));
    TrimKeepsStart(lead, "Style:", " " + Join(fields, ","));
  }

  lemma StyleStartFacts(line: string)
    requires StartsAs(line, "Style:")
    ensures Header(line) == None && !IsComment(line)
    ensures StripPrefixCi(Trim(line), "Style:").Some? && StripPrefixCi(Trim(line), "Format:").None?
  {
    var t := Trim(line);
    hide Trim;
    assert t[0] == 'S';
    PrefixOf(t, CommentPrefix);
    PrefixOf(t, "Format:");
    if |t| >= 7 {
      assert Lower(t[..7])[0] == 's';
      assert Lower("Format:")[0] == 'f';
    }
    if |t| >= 14 {
      assert Lower(t[..14])[0] == 's';
      assert Lower(CommentPrefix)[0] == ';';
    }
  }

  // A renamed Style line is the old line or one that starts with `Style:`.
  lemma RewriteStyleShape(line: string, format: seq<string>, m: Renaming)
    ensures RewriteStyleLine(line, format, m) == line || StartsAs(RewriteStyleLine(line, format, m), "Style:")
  {
    if StyleFields(line, format).Some? {
      StyleFieldsFacts(line, format);
      var (lead, fields) := StyleFields(line, format).value;
      hide StyleFields, StartsAs;
      var k := FontIndex(format);
      if k < |fields| && LookupName(fields[k]) in m {
        StyleLineStarts(lead, fields[k := m[LookupName(fields[k])]]);
      }
    }
  }

  /** A line a styles section writes is of the kind it was: no header, no comment, same step. */
  lemma StyleStepKeepsKind(st: Pass, line: string, m: Renaming)
    requires Header(line) == None && !IsComment(line)
    ensures var out := StyleStep(st, line, m).0;
            && Header(out) == None && !IsComment(out)
            && (StripPrefixCi(Trim(out), "Format:") == StripPrefixCi(Trim(line), "Format:"))
            && (StripPrefixCi(Trim(out), "Style:").Some? == StripPrefixCi(Trim(line), "Style:").Some?)
  {
    RewriteStyleShape(line, st.format, m);
    var out := StyleStep(st, line, m).0;
    hide StartsAs;
    if out != line {
      StyleStartFacts(out);
    }
  }

  /** Two style steps with two renamings are one step with their composition. */
  lemma StyleStepCompose(st: Pass, st': Pass, line: string, m: Renaming, r: Renaming)
    requires CleanNames(m) && st'.format == st.format && Header(line) == None && !IsComment(line)
    ensures var (out, next) := StyleStep(st, line, m);
            && StyleStep(st', out, r).0 == StyleStep(st, line, Compose(m, r)).0
            && StyleStep(st', out, r).1.format == next.format == StyleStep(st, line, Compose(m, r)).1.format
  {
    StyleStepKeepsKind(st, line, m);
    StyleCompose(line, st.format, m, r);
    hide RewriteStyleLine, Compose, StripPrefixCi, Trim, FormatFields;
  }

  // ----- Clean lines -----

  lemma {:induction false} RewriteCleanLine(line: string, m: Renaming)
    requires CleanNames(m) && CleanLine(line)
    ensures CleanLine(RewriteFnTags(line, m))
  {
    if '\n' in RewriteFnTags(line, m) {
      RewriteChars(line, m, '\n');
    }
    RewriteKeepsFirst(line, m);
    if line != "" {
      RewriteLastChar(line, m);
    }
  }

  lemma {:induction false} JoinNoNewline(fields: seq<string>)
    requires forall i :: 0 <= i < |fields| ==> '\n' !in fields[i]
    ensures '\n' !in Join(fields, ",")
    decreases |fields|
  {
    if |fields| > 1 {
      JoinNoNewline(fields[1..]);
    }
  }

  lemma {:induction false} JoinLast(fields: seq<string>)
    requires |fields| >= 1
    ensures var s, last := Join(fields, ","), fields[|fields| - 1];
            if last != "" then s != "" && s[|s| - 1] == last[|last| - 1]
            else if |fields| == 1 then s == "" else s != "" && s[|s| - 1] == ','
    decreases |fields|
  {
    if |fields| > 1 {
      JoinLast(fields[1..]);
      var rest := Join(fields[1..], ",");
      assert Join(fields, ",") == fields[0] + "," + rest;
    }
  }

  // Fields joined after a front that does not end in a carriage return.
  lemma {:induction false} JoinedLineClean(front: string, fields: seq<string>)
    requires '\n' !in front && front != "" && front[|front| - 1] != '\r' && |fields| >= 1
    requires forall i :: 0 <= i < |fields| ==> CleanLine(fields[i])
    ensures CleanLine(front + Join(fields, ","))
  {
    JoinNoNewline(fields);
    JoinLast(fields);
    hide Join;
    FrontAndEnd(front, Join(fields, ","));
  }

  lemma FrontAndEnd(front: string, s: string)
    requires '\n' !in front && front != "" && front[|front| - 1] != '\r' && CleanLine(s)
    ensures CleanLine(front + s)
  {
    var line := front + s;
    if s != "" {
      assert line[|line| - 1] == s[|s| - 1];
    } else {
      assert line == front;
    }
  }

  lemma SubCleanLine(s: string, a: string, t: string, b: string)
    requires '\n' !in s && s == a + t + b
    ensures '\n' !in t
  {
    assert forall c :: c in t ==> c in a + t + b;
  }

  lemma {:induction false} SplitFieldsCleanLine(s: string, n: nat)
    requires '\n' !in s
    ensures forall i :: 0 <= i < n ==> CleanLine(SplitFields(s, n)[i])
  {
    SplitFieldsChars(s, n, '\n');
    SplitFieldsClean(s, n);
    hide SplitFields;
  }

  // The indentation and the fields of a clean line are clean.
  lemma {:induction false} FieldsOfCleanLine(line: string, front: string, n: nat)
    requires '\n' !in line && StripPrefixCi(TrimStart(line), front).Some?
    ensures var start := TrimStart(line);
            && '\n' !in line[..|line| - |start|]
            && Blank(line[..|line| - |start|])
            && forall i :: 0 <= i < n ==> CleanLine(SplitFields(TrimStart(StripPrefixCi(start, front).value), n)[i])
  {
    var a := TrimStartFacts(line);
    var start := TrimStart(line);
    var rest := StripPrefixCi(start, front).value;
    var b := TrimStartFacts(rest);
    assert start == start[..|front|] + rest;
    hide TrimStart, SplitFields, StripPrefixCi, Blank;
    assert line[..|line| - |start|] == a;
    NoNewlineInParts(a, start, '\n');
    NoNewlineInParts(start[..|front|], rest, '\n');
    NoNewlineInParts(b, TrimStart(rest), '\n');
    SplitFieldsCleanLine(TrimStart(rest), n);
  }

  lemma NoNewlineInParts(a: string, b: string, c: char)
    requires c !in a + b
    ensures c !in a && c !in b
  {
    assert forall x :: x in a || x in b ==> x in a + b;
  }

  lemma RewriteStyleCleanLine(line: string, format: seq<string>, m: Renaming)
    requires CleanNames(m) && CleanLine(line)
    ensures CleanLine(RewriteStyleLine(line, format, m))
  {
    if StyleFields(line, format).Some? {
      FieldsOfCleanLine(line, "Style:", StyleFieldCount(format));
      var (lead, fields) := StyleFields(line, format).value;
      hide StyleFields, StripPrefixCi, TrimStart;
      var k := FontIndex(format);
      if k < |fields| && LookupName(fields[k]) in m {
        var name := m[LookupName(fields[k])];
        assert CleanLine(name) by {
          assert name[|name| - 1] in name;
        }
        JoinedLineClean(lead + "Style: ", fields[k := name]);
      }
    }
  }
}
