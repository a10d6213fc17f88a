/**
  Where renaming does not preserve meaning: for each condition of the theorem, what happens when
  it fails, as an equivalence where there is one and on a concrete script part otherwise.
*/
module MeaningLimits {
  import opened Text
  import opened Tags
  import opened FontNames
  import opened Interpreter
  import opened TagMeaning
  import opened TextMeaning
  import opened Meaning

  // ----- Names in tags -----

  const Plainly := StyleInfo("A", false, false)
  const Bare := Ground(Plainly, map[])
  const Initial := TagState(Plainly, 0)

  // A renaming of one lower-case name to `N`.
  function One(name: string): Renaming {
    map[name := "N"]
  }

  lemma OneIsGood(name: string)
    ensures GoodNames(One(name)) && Injective(One(name))
  {
  }

  lemma NormalA()
    ensures NormFont("A") == "A" && LookupName("A") == "a"
  {
    TrimOfTrimmed("A");
    assert TrimAts("A") == "A" && Lower("A") == "a";
  }

  // A block that is one `\fn` tag with this argument does not end with the renamed font.
  predicate Diverges(u: string, m: Renaming) {
    FontAfter(RewriteFnTags(FN + u, m), RenamedState(Initial, m), RenamedGround(Bare, m))
    != Renamed(m, FontAfter(FN + u, Initial, Bare))
  }

  lemma NotKeptDiverges(u: string, name: string)
    requires name != "a" && Plain(u) && NormFont(ReadTagArg(u).0) != "N" && !FnKept(u, One(name))
    ensures Diverges(u, One(name))
  {
    OneIsGood(name);
    NormalA();
    assert Renamed(One(name), "A") == "A";
    hide NormFont, LookupName, ReadTagArg, FnKept, Plain, GoodNames, Injective, FontAfter, RewriteFnTags;
    OneTagExact(u, Initial, Bare, One(name));
  }

  lemma ReadsParenthesised()
    ensures ReadTagArg("(X)").0 == "X" && NormFont("X") == "X" && LookupName("X") == "x"
  {
    ReadParenthesised("X", "");
    assert "(" + "X" + ")" + "" == "(X)";
    TrimOfTrimmed("X");
    assert TrimAts("X") == "X" && Lower("X") == "x";
  }

  lemma KeyOfParenthesised()
    ensures "(X)"[..ArgEnd("(X)")] == "(X)" && LookupName("(X)") != "x" && Plain("(X)")
  {
    ArgEndIs("(X)", "");
    assert "(X)" + "" == "(X)" && "(X)"[..3] == "(X)";
    TrimOfTrimmed("(X)");
    assert TrimAts("(X)") == "(X)";
    assert Lower("(X)")[0] == '(';
  }

  /** `\fn(X)`: the interpreter reads `X`, the renaming looks up the parenthesised text. */
  lemma ParenthesisedName()
    ensures Diverges("(X)", One("x"))
  {
    ReadsParenthesised();
    KeyOfParenthesised();
    hide ReadTagArg, NormFont, LookupName, ArgEnd, Plain, Diverges;
    NotKeptDiverges("(X)", "x");
  }

  lemma {:induction false} ReadsPlain(u: string)
    requires Plain(u) && Trimmed(u) && u != "" && u[0] != '('
    ensures ReadTagArg(u).0 == u && u[..ArgEnd(u)] == u
  {
    ArgEndIs(u, "");
    assert u + "" == u && u[..|u|] == u;
    assert '\\' !in u;
    ReadOpen(u, "");
    TrimOfTrimmed(u);
  }

  lemma Normal(name: string)
    requires Trimmed(name) && (name != "" ==> name[0] != '@')
    ensures NormFont(name) == name
  {
    TrimOfTrimmed(name);
    assert TrimAts(name) == name;
  }

  /** `\fn0`: the interpreter ignores it, the renaming takes `0` for a name. */
  lemma ZeroName()
    ensures Diverges("0", One("0"))
  {
    ReadsPlain("0");
    Normal("0");
    assert Lower("0") == "0";
    hide ReadTagArg, NormFont, Lower, ArgEnd, Diverges;
    NotKeptDiverges("0", "0");
  }

  lemma TwiceVertical()
    ensures NormFont("@ @X") == "@X" && LookupName("@ @X") == "@x" && LookupName("@X") == "x"
  {
    TrimOfTrimmed("@ @X");
    assert TrimAts("@ @X") == " @X";
    assert " @X" == " " + "@X" + "";
    TrimIs(" ", "@X", "");
    TrimOfTrimmed("@X");
    assert TrimAts("@X") == "X";
    TrimOfTrimmed("X");
    hide Trim, TrimAts;
    assert Lower("@X") == "@x" && Lower("X") == "x";
  }

  /** `\fn@ @X`: normalising the name once and twice gives different names. */
  lemma NotIdempotent()
    ensures Diverges("@ @X", One("x"))
  {
    ReadsPlain("@ @X");
    TwiceVertical();
    hide ReadTagArg, NormFont, LookupName, ArgEnd, Diverges;
    NotKeptDiverges("@ @X", "x");
  }

  // ----- Visible text -----

  lemma {:induction false} OneRun(text: string, st: TagState, g: Ground)
    requires '{' !in text
    ensures Runs(text, st, g.base, g.styles) == RunOf(text, st)
  {
    if text != "" {
      VisibleSegment(text, "");
      assert text + "" == text;
      RoundUnfold(text, st, g);
      assert Runs("", st, g.base, g.styles) == [];
      assert RunOf(text, st) + [] == RunOf(text, st);
    }
  }

  /**
    Text without blocks, drawn with some font, keeps its runs exactly when every `\fn` argument in
    it that is renamed is already spelled as the new name.
  */
  lemma {:induction false} VisibleExact(text: string, st: TagState, g: Ground, m: Renaming)
    requires GoodNames(m) && '{' !in text && text != "" && Settled(st.style.font, m)
    requires st.level <= 0 && NormFont(st.style.font) != ""
    ensures var g' := RenamedGround(g, m);
            Runs(RewriteFnTags(text, m), RenamedState(st, m), g'.base, g'.styles)
            == RenamedRuns(Runs(text, st, g.base, g.styles), m)
            <==> SpelledBy(text, m)
  {
    var text' := RewriteFnTags(text, m);
    if '{' in text' {
      RewriteChars(text, m, '{');
    }
    RewriteKeepsFirst(text, m);
    UnchangedIsSpelled(text, m);
    OneRun(text, st, g);
    OneRun(text', RenamedState(st, m), RenamedGround(g, m));
    RunKept(text, st, m);
    NormalRenamed(st.style.font, m);
    hide RewriteFnTags, Runs, NormFont, Settled, Renamed, GoodNames, SpelledBy;
    var a, b := RunOf(text', RenamedState(st, m)), RunOf(text, RenamedState(st, m));
    assert a[0].text == text' && b[0].text == text;
  }

  // The text without blocks does not keep its runs.
  predicate ShownDiffers(text: string, m: Renaming) {
    var g' := RenamedGround(Bare, m);
    Runs(RewriteFnTags(text, m), RenamedState(Initial, m), g'.base, g'.styles)
    != RenamedRuns(Runs(text, Initial, Plainly, map[]), m)
  }

  /** A visible `\fnX`, outside any block: the renaming changes what is shown. */
  lemma VisibleName()
    ensures ShownDiffers("\\fnX", One("x"))
  {
    OneIsGood("x");
    NormalA();
    Normal("X");
    assert Lower("X") == "x";
    assert FN + "X" + "" == "\\fnX" && FN + "X" == "\\fnX";
    MatchTag("X", "");
    hide NormFont, Lower, FnArg, MatchLen, Runs, RewriteFnTags;
    assert !SpelledBy("\\fnX", One("x"));
    VisibleExact("\\fnX", Initial, Bare, One("x"));
  }

  // ----- Undefined styles -----

  /** The font of a dialogue line's base style is renamed exactly when the style is defined or `Arial` keeps its name. */
  lemma FallbackExact(s: Script, s': Script, line: string, m: Renaming)
    requires s'.eventFormat == s.eventFormat && s'.styles == RenamedStyles(s.styles, m)
    requires DialogueOf(s, line).Some?
    ensures DialogueOf(s', line).Some?
    ensures DialogueOf(s', line).value.1.base == RenamedStyle(DialogueOf(s, line).value.1.base, m)
            <==> StyleName(s, line) in s.styles || Renamed(m, "Arial") == "Arial"
  {
    hide Trim, TrimStart, StripPrefixCi, SplitFields, LookupName;
  }

  // A script whose dialogue lines have a style and a text, and one line whose style is not defined.
  const OneEvent := Script("events", [], ["style", "text"], map[], [], 0)
  const Undefined := "Dialogue: S,x"

  lemma UndefinedIsDialogue()
    ensures DialogueOf(OneEvent, Undefined).Some? && '\\' !in Undefined
  {
    assert TrimStart(Undefined) == Undefined && Undefined[..9] == "Dialogue:";
    hide TrimStart, SplitFields, Lower, BaseStyle;
    assert Position(["style", "text"], "style") == 0 && Position(["style", "text"], "text") == 1 by {
      assert ["style", "text"][1..] == ["text"];
    }
  }

  lemma ArialRenamed()
    ensures Renamed(One("arial"), "Arial") == "N"
  {
    Normal("Arial");
    assert Lower("Arial") == "arial";
    hide NormFont, Lower;
  }

  lemma {:induction false} UndefinedUnchanged(m: Renaming)
    ensures RewriteFnTags(Undefined, m) == Undefined
  {
    UndefinedIsDialogue();
    RewriteWithoutTags(Undefined, "", m);
    assert Undefined + "" == Undefined && RewriteFnTags("", m) == "";
  }

  /**
    A line whose style is not defined, where `Arial` is renamed: the line is written as it was, and
    its base font is not the renamed one.
  */
  lemma FallbackName()
    ensures RewriteFnTags(Undefined, One("arial")) == Undefined && DialogueOf(OneEvent, Undefined).Some?
    ensures DialogueOf(OneEvent, Undefined).value.1.base
            != RenamedStyle(DialogueOf(OneEvent, Undefined).value.1.base, One("arial"))
  {
    UndefinedIsDialogue();
    ArialRenamed();
    UndefinedUnchanged(One("arial"));
    hide DialogueOf, RewriteFnTags, Renamed, StyleName, RenamedStyle;
    assert OneEvent.styles == RenamedStyles(OneEvent.styles, One("arial"));
    FallbackExact(OneEvent, OneEvent, Undefined, One("arial"));
  }
}
