/**
  What the three passes make of each line, told by position, and what the renaming of tags does.
*/
module PassFacts {
  import opened Text
  import opened FontNames
  import opened Drawings
  import opened Document
  import opened TagMeaning

  // ----- Tags -----

  /**
    A tag is renamed by its argument, which runs up to the next backslash or closing brace: the new
    name of that font takes its place, an unknown one stays. Text before the tag is kept.
  */
  lemma {:induction false} TagRenamed(a: string, arg: string, rest: string, m: Renaming)
    requires '\\' !in a && Plain(arg) && (rest == "" || rest[0] == '\\' || rest[0] == '}')
    ensures RewriteFnTags(a + ("\\fn" + arg + rest), m)
            == a + ("\\fn" + (if LookupName(arg) in m then m[LookupName(arg)] else arg) + RewriteFnTags(rest, m))
  {
    RewriteWithoutTags(a, "\\fn" + arg + rest, m);
    MatchTag(arg, rest);
    FontNames.RewriteStep("\\fn" + arg + rest, m);
    hide RewriteFnTags, LookupName;
  }

  /** Text without tags, and tags other than `\fn`, are kept. */
  lemma {:induction false} OtherTextKept(s: string, m: Renaming)
    requires forall i :: 0 <= i < |s| ==> !IsFnTag(s[i..])
    ensures RewriteFnTags(s, m) == s
  {
    NoHitsThere(s, m);
    RewriteSkips(s, |s|, m);
    assert s[|s|..] == "" && RewriteFnTags("", m) == "" && s[..|s|] + "" == s;
  }

  lemma NoHitsThere(s: string, m: Renaming)
    requires forall i :: 0 <= i < |s| ==> !IsFnTag(s[i..])
    ensures NoHits(s, |s|, m)
  {
    hide LookupName;
  }

  // ----- The subset pass -----

  // ----- The passes, position by position -----

  // The section a line is in: the header that was last met, without any at the start.
  function SectionAt(lines: seq<string>, k: nat): string
    requires k <= |lines|
  {
    if k == 0 then "" else if Header(lines[k - 1]).Some? then Header(lines[k - 1]).value else SectionAt(lines, k - 1)
  }

  // The columns of the last `Format:` line that a section with `styles` in its name had.
  function FormatAt(lines: seq<string>, k: nat): seq<string>
    requires k <= |lines|
  {
    if k == 0 then []
    else
      var format := StripPrefixCi(Trim(lines[k - 1]), "Format:");
      if Header(lines[k - 1]) == None && Contains(SectionAt(lines, k - 1), "styles") && format.Some? then FormatFields(format.value)
      else FormatAt(lines, k - 1)
  }

  predicate Met(lines: seq<string>, k: nat, h: string)
    requires k <= |lines|
  {
    exists j :: 0 <= j < k && Header(lines[j]) == Some(h)
  }

  predicate IsFirst(lines: seq<string>, k: nat, h: string)
    requires k < |lines|
  {
    Header(lines[k]) == Some(h) && !Met(lines, k, h)
  }

  function StyleAt(lines: seq<string>, k: nat, m: Renaming): string
    requires k < |lines|
  {
    if StripPrefixCi(Trim(lines[k]), "Style:").Some? then RewriteStyleLine(lines[k], FormatAt(lines, k), m) else lines[k]
  }

  // What the subset pass makes of line k.
  function SubsetAt(lines: seq<string>, k: nat, env: SubsetEnv): seq<string>
    requires k < |lines|
  {
    var line, section := lines[k], SectionAt(lines, k + 1);
    if section == "fonts" || (Header(line) == None && section == "script info" && IsComment(line)) then []
    else if Header(line).Some? then
      (if IsFirst(lines, k, "events") then env.fontLines else []) + [line]
      + (if IsFirst(lines, k, "script info") then env.comments else [])
    else if Contains(section, "styles") then [StyleAt(lines, k, env.names)]
    else if section == "events" then [RewriteFnTags(line, env.names)]
    else [line]
  }

  function SubsetFrom(lines: seq<string>, k: nat, env: SubsetEnv): seq<string>
    requires k <= |lines|
    decreases |lines| - k
  {
    if k == |lines| then [] else SubsetAt(lines, k, env) + SubsetFrom(lines, k + 1, env)
  }

  // What the strip pass makes of line k.
  function StripAt(lines: seq<string>, k: nat, env: StripEnv): seq<string>
    requires k < |lines|
  {
    var line, section := lines[k], SectionAt(lines, k + 1);
    if section == "fonts" || (Header(line) == None && IsRestoredComment(line, env.names)) then []
    else if Header(line).Some? then (if IsFirst(lines, k, "events") then env.fontLines else []) + [line]
    else if Contains(section, "styles") then [StyleAt(lines, k, env.names)]
    else if section == "events" then [Restore(RewriteFnTags(line, env.names), env.drawings)]
    else [line]
  }

  function StripFrom(lines: seq<string>, k: nat, env: StripEnv): seq<string>
    requires k <= |lines|
    decreases |lines| - k
  {
    if k == |lines| then [] else StripAt(lines, k, env) + StripFrom(lines, k + 1, env)
  }

  // The variables of a pass in front of line k.
  function PassAt(lines: seq<string>, k: nat, fontLines: seq<string>): Pass
    requires k <= |lines|
  {
    Pass(SectionAt(lines, k), SectionAt(lines, k) == "fonts", fontLines != [] && Met(lines, k, "events"), FormatAt(lines, k),
         Met(lines, k, "script info"))
  }

  lemma MetStep(lines: seq<string>, k: nat, h: string)
    requires k < |lines|
    ensures Met(lines, k + 1, h) <==> Met(lines, k, h) || Header(lines[k]) == Some(h)
  {
    hide Header;
  }

  lemma NoStylesInFonts()
    ensures !Contains("fonts", "styles")
  {
  }

  lemma CommentIsNoFormat(t: string)
    requires StripPrefixCi(t, CommentPrefix).Some?
    ensures StripPrefixCi(t, "Format:") == None
  {
    assert Lower(t[..|CommentPrefix|])[0] == LowerChar(t[0]) && Lower(CommentPrefix)[0] == ';';
    assert |t| >= 7 ==> Lower(t[..7])[0] == LowerChar(t[0]) && Lower("Format:")[0] == 'f';
  }

  lemma CommentsAre(line: string, m: Renaming)
    ensures IsComment(line) || IsRestoredComment(line, m) ==> StripPrefixCi(Trim(line), CommentPrefix).Some?
  {
    hide Trim, StripPrefixCi, FindDash;
  }

  lemma HeaderEnters(lines: seq<string>, k: nat, h: string, fontLines: seq<string>, comments: seq<string>)
    requires k < |lines| && Header(lines[k]) == Some(h)
    ensures SectionAt(lines, k + 1) == h
    ensures Enter(PassAt(lines, k, fontLines), h, lines[k], fontLines, comments) ==
            (if h == "fonts" then []
             else (if IsFirst(lines, k, "events") then fontLines else []) + [lines[k]]
                  + (if IsFirst(lines, k, "script info") then comments else []),
             PassAt(lines, k + 1, fontLines))
  {
    MetStep(lines, k, "events");
    MetStep(lines, k, "script info");
    hide Header, Trim, StripPrefixCi, FormatFields, Contains, Met;
  }

  // A line that is no header and no `Format:` line of a styles section changes nothing.
  lemma PassStays(lines: seq<string>, k: nat, fontLines: seq<string>)
    requires k < |lines| && Header(lines[k]) == None
    ensures SectionAt(lines, k + 1) == SectionAt(lines, k)
    ensures !Contains(SectionAt(lines, k), "styles") || StripPrefixCi(Trim(lines[k]), "Format:") == None ==>
              PassAt(lines, k + 1, fontLines) == PassAt(lines, k, fontLines)
  {
    MetStep(lines, k, "events");
    MetStep(lines, k, "script info");
    hide Header, Trim, StripPrefixCi, FormatFields, Contains, Met;
  }

  lemma StyleMoves(lines: seq<string>, k: nat, fontLines: seq<string>, m: Renaming)
    requires k < |lines| && Header(lines[k]) == None && Contains(SectionAt(lines, k), "styles")
    ensures StyleStep(PassAt(lines, k, fontLines), lines[k], m) == (StyleAt(lines, k, m), PassAt(lines, k + 1, fontLines))
  {
    NoStylesInFonts();
    MetStep(lines, k, "events");
    MetStep(lines, k, "script info");
    FormatOrStyle(Trim(lines[k]));
    hide Header, Trim, StripPrefixCi, FormatFields, Contains, Met, RewriteStyleLine;
  }

  lemma FormatOrStyle(t: string)
    ensures StripPrefixCi(t, "Format:") == None || StripPrefixCi(t, "Style:") == None
  {
    assert |t| >= 7 ==> Lower(t[..7])[0] == LowerChar(t[0]) && Lower("Format:")[0] == 'f';
    assert |t| >= 6 ==> Lower(t[..6])[0] == LowerChar(t[0]) && Lower("Style:")[0] == 's';
  }

  lemma SubsetStep(lines: seq<string>, k: nat, env: SubsetEnv)
    requires k < |lines|
    ensures SubsetLine(PassAt(lines, k, env.fontLines), lines[k], env) == (SubsetAt(lines, k, env), PassAt(lines, k + 1, env.fontLines))
  {
    var section := SectionAt(lines, k);
    NoStylesInFonts();
    CommentsAre(lines[k], env.names);
    if StripPrefixCi(Trim(lines[k]), CommentPrefix).Some? {
      CommentIsNoFormat(Trim(lines[k]));
    }
    hide IsComment, Trim, StripPrefixCi, FormatFields, RewriteStyleLine, RewriteFnTags, Contains, Met, Enter, StyleStep, SectionAt,
      FormatAt, Header, StyleAt, IsFirst;
    if Header(lines[k]).Some? {
      HeaderEnters(lines, k, Header(lines[k]).value, env.fontLines, env.comments);
    } else {
      PassStays(lines, k, env.fontLines);
      if Contains(section, "styles") {
        StyleMoves(lines, k, env.fontLines, env.names);
      }
    }
  }

  lemma {:induction false} SubsetRun(lines: seq<string>, k: nat, env: SubsetEnv)
    requires k <= |lines|
    ensures SubsetLines(PassAt(lines, k, env.fontLines), lines[k..], env)
            == (SubsetFrom(lines, k, env), PassAt(lines, |lines|, env.fontLines))
    decreases |lines| - k
  {
    hide SubsetLine, SubsetAt, PassAt;
    if k < |lines| {
      SubsetStep(lines, k, env);
      SubsetRun(lines, k + 1, env);
      assert lines[k..][0] == lines[k] && lines[k..][1..] == lines[k + 1..];
    } else {
      assert lines[k..] == [];
    }
  }

  /**
    The subset pass, told by position: the lines of the old font section go with its header, and old
    comments from the script info; the new section stands in front of the first `[Events]` header,
    or at the end when there is none, and the new comments behind the first `[Script Info]` header;
    Style lines are renamed in their font column, event lines in their tags; other lines stay.
  */
  lemma {:induction false} SubsetByPosition(lines: seq<string>, env: SubsetEnv)
    ensures SubsetResult(lines, env)
            == SubsetFrom(lines, 0, env) + if Met(lines, |lines|, "events") then [] else env.fontLines
  {
    assert lines[0..] == lines && PassAt(lines, 0, env.fontLines) == FirstPass;
    SubsetRun(lines, 0, env);
    hide SubsetLines, SubsetFrom, SectionAt, FormatAt, Met;
  }

  lemma StripStep(lines: seq<string>, k: nat, env: StripEnv)
    requires k < |lines|
    ensures StripLine(PassAt(lines, k, env.fontLines), lines[k], env) == (StripAt(lines, k, env), PassAt(lines, k + 1, env.fontLines))
  {
    NoStylesInFonts();
    CommentsAre(lines[k], env.names);
    if StripPrefixCi(Trim(lines[k]), CommentPrefix).Some? {
      CommentIsNoFormat(Trim(lines[k]));
    }
    hide IsRestoredComment, Trim, StripPrefixCi, FormatFields, RewriteStyleLine, RewriteFnTags, Contains, Met, Enter, StyleStep,
      SectionAt, FormatAt, Header, StyleAt, IsFirst, Restore;
    if Header(lines[k]).Some? {
      HeaderEnters(lines, k, Header(lines[k]).value, env.fontLines, []);
      var out := (if IsFirst(lines, k, "events") then env.fontLines else []) + [lines[k]];
      assert out + [] == out;
    } else {
      PassStays(lines, k, env.fontLines);
      if Contains(SectionAt(lines, k), "styles") {
        StyleMoves(lines, k, env.fontLines, env.names);
      }
    }
  }

  lemma {:induction false} StripRun(lines: seq<string>, k: nat, env: StripEnv)
    requires k <= |lines|
    ensures StripLines(PassAt(lines, k, env.fontLines), lines[k..], env)
            == (StripFrom(lines, k, env), PassAt(lines, |lines|, env.fontLines))
    decreases |lines| - k
  {
    hide StripLine, StripAt, PassAt;
    if k < |lines| {
      StripStep(lines, k, env);
      StripRun(lines, k + 1, env);
      assert lines[k..][0] == lines[k] && lines[k..][1..] == lines[k + 1..];
    } else {
      assert lines[k..] == [];
    }
  }

  /**
    The strip pass, told by position: the font section goes, with the fonts that stay in front of the
    first `[Events]` header or at the end; comments about a font whose original is known go, anywhere;
    Style lines and tags get their old names, and event lines their drawings.
  */
  lemma {:induction false} StripByPosition(lines: seq<string>, env: StripEnv)
    ensures StripResult(lines, env)
            == StripFrom(lines, 0, env) + if Met(lines, |lines|, "events") then [] else env.fontLines
  {
    assert lines[0..] == lines && PassAt(lines, 0, env.fontLines) == FirstPass;
    StripRun(lines, 0, env);
    hide StripLines, StripFrom, SectionAt, FormatAt, Met;
  }

  // ----- The drawing pass, position by position -----

  // The columns of the last `Format:` line of the events section.
  function ColumnsAt(lines: seq<string>, k: nat): seq<string>
    requires k <= |lines|
  {
    if k == 0 then []
    else
      var format := StripPrefixCi(Trim(lines[k - 1]), "Format:");
      if Header(lines[k - 1]) == None && SectionAt(lines, k - 1) == "events" && format.Some? then FormatFields(format.value)
      else ColumnsAt(lines, k - 1)
  }

  // The indentation and the fields of line k, if it is a Dialogue line of the events section.
  function FieldsAt(lines: seq<string>, k: nat): Option<(string, seq<string>)>
    requires k < |lines|
  {
    if Header(lines[k]) == None && SectionAt(lines, k) == "events" && StripPrefixCi(Trim(lines[k]), "Format:") == None then
      DialogueFields(lines[k], ColumnsAt(lines, k))
    else None
  }

  // The dictionary in front of line k: the drawings of the Text fields before it.
  function BookAt(lines: seq<string>, k: nat): Book
    requires k <= |lines|
  {
    if k == 0 then EmptyBook
    else if FieldsAt(lines, k - 1).Some? then
      Rewrite(FieldsAt(lines, k - 1).value.1[Position(ColumnsAt(lines, k - 1), "text")], BookAt(lines, k - 1)).1
    else BookAt(lines, k - 1)
  }

  // What the drawing pass makes of line k.
  function DrawnAt(lines: seq<string>, k: nat): string
    requires k < |lines|
  {
    match FieldsAt(lines, k)
    case None => lines[k]
    case Some((lead, fields)) =>
      var t := Position(ColumnsAt(lines, k), "text");
      lead + "Dialogue: " + Join(fields[t := Rewrite(fields[t], BookAt(lines, k)).0], ",")
  }

  function DrawPassAt(lines: seq<string>, k: nat): DrawPass
    requires k <= |lines|
  {
    DrawPass(SectionAt(lines, k), ColumnsAt(lines, k), BookAt(lines, k))
  }

  lemma DrawStep(lines: seq<string>, k: nat)
    requires k < |lines|
    ensures DrawLine(DrawPassAt(lines, k), lines[k]) == (DrawnAt(lines, k), DrawPassAt(lines, k + 1))
  {
    hide Header, Trim, StripPrefixCi, FormatFields, DialogueFields, Rewrite, Join;
  }

  /**
    The drawing pass, told by position: the Text field of every Dialogue line of the events section
    is rewritten with the dictionary of the fields before it; every other line stays.
  */
  lemma {:induction false} DrawByPosition(lines: seq<string>, k: nat)
    requires k <= |lines|
    ensures var (out, end) := DrawLines(DrawPassAt(lines, k), lines[k..]);
            && |out| == |lines| - k && (forall i :: k <= i < |lines| ==> out[i - k] == DrawnAt(lines, i))
            && end == DrawPassAt(lines, |lines|)
    decreases |lines| - k
  {
    hide DrawLine, DrawnAt, DrawPassAt;
    if k < |lines| {
      DrawStep(lines, k);
      DrawByPosition(lines, k + 1);
      assert lines[k..][0] == lines[k] && lines[k..][1..] == lines[k + 1..];
    } else {
      assert lines[k..] == [];
    }
  }
}
