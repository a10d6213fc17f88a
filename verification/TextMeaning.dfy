/**
  Renaming a Text field and the lines it stands in: the interpreter finds the same runs under the
  renamed fonts. Blocks are taken from `TagMeaning`; between them the renaming must leave the
  visible text alone, and the braces that open and close blocks must stay where they were, so that
  the scanner cuts both texts alike.
*/
module TextMeaning {
  import opened Text
  import opened FontNames
  import opened Interpreter
  import opened TagMeaning

  // The conditions on a Text field, round by round as the interpreter reads it: good tags in the
  // closed blocks, and no changed match in visible text.
  predicate GoodText(text: string, m: Renaming)
    decreases |text|
  {
    text == "" ||
    match NextSegment(text)
    case Block(tag, rest) => GoodTags(tag, m) && GoodText(rest, m)
    case Visible(run, rest) => |run| <= |text| && NoHits(text, |run|, m) && GoodText(rest, m)
  }

  lemma NormalRenamed(font: string, m: Renaming)
    requires GoodNames(m) && Settled(font, m)
    ensures NormFont(Renamed(m, font)) == Renamed(m, NormFont(font))
    ensures NormFont(Renamed(m, font)) == "" <==> NormFont(font) == ""
  {
    if LookupName(font) in m {
      NormFontOfClean(m[LookupName(font)]);
    }
    hide Trim, TrimAts, Lower;
  }

  lemma RunKept(run: string, st: TagState, m: Renaming)
    requires GoodNames(m) && Settled(st.style.font, m)
    ensures RunOf(run, RenamedState(st, m)) == RenamedRuns(RunOf(run, st), m)
  {
    NormalRenamed(st.style.font, m);
    hide NormFont, Renamed, Settled, GoodNames;
  }

  lemma SegmentParts(text: string)
    requires text != ""
    ensures var seg := NextSegment(text);
            && (seg.Block? ==> text == "{" + seg.tag + "}" + seg.rest && '}' !in seg.tag)
            && (seg.Visible? ==> text == seg.run + seg.rest && seg.run != "")
            && (seg.Visible? ==> if text[0] == '{' then seg.run == "{" && '}' !in seg.rest
                                 else '{' !in seg.run && (seg.rest != "" ==> seg.rest[0] == '{'))
  {
    Absent(text, '}');
    FindCharFirst(text, '}');
    FindCharFirst(text, '{');
    var close := FindChar(text, '}');
    if text[0] == '{' && close < |text| {
      assert text[1..close] == text[..close][1..];
    }
  }

  lemma BlockSegment(tag: string, rest: string)
    requires '}' !in tag
    ensures NextSegment("{" + tag + "}" + rest) == Interpreter.Block(tag, rest)
  {
    var text := "{" + tag + "}" + rest;
    assert text == ("{" + tag) + ("}" + rest);
    FindCharIs("{" + tag, '}', "}" + rest);
    assert text[1..1 + |tag|] == tag && text[|tag| + 2..] == rest;
  }

  lemma VisibleSegment(run: string, rest: string)
    requires (run == "{" && '}' !in rest) || (run != "" && '{' !in run && (rest != "" ==> rest[0] == '{'))
    ensures NextSegment(run + rest) == Visible(run, rest)
  {
    var text := run + rest;
    if run == "{" && '}' !in rest {
      Absent(text, '}');
      assert text[1..] == rest;
    } else {
      FindCharIs(run, '{', rest);
      assert text[|run|..] == rest;
    }
  }

  // The renamed text has the renamed segment.
  lemma {:induction false} SegmentKept(text: string, m: Renaming)
    requires CleanNames(m) && text != "" && GoodText(text, m)
    ensures var seg, text' := NextSegment(text), RewriteFnTags(text, m);
            && text' != ""
            && NextSegment(text') ==
               (if seg.Block? then Interpreter.Block(RewriteFnTags(seg.tag, m), RewriteFnTags(seg.rest, m))
                else Visible(seg.run, RewriteFnTags(seg.rest, m)))
  {
    SegmentParts(text);
    var seg := NextSegment(text);
    RewriteKeepsFirst(text, m);
    RewriteKeepsFirst(seg.rest, m);
    hide NextSegment, GoodTags, Hit;
    if seg.Block? {
      RewriteAcrossBrace("{" + seg.tag, seg.rest, m);
      RewriteWithoutTags("{", seg.tag, m);
      if '}' in RewriteFnTags(seg.tag, m) {
        RewriteChars(seg.tag, m, '}');
      }
      hide RewriteFnTags;
      BlockSegment(RewriteFnTags(seg.tag, m), RewriteFnTags(seg.rest, m));
    } else {
      RewriteSkips(text, |seg.run|, m);
      if '}' in RewriteFnTags(seg.rest, m) {
        RewriteChars(seg.rest, m, '}');
      }
      hide RewriteFnTags;
      assert text[..|seg.run|] == seg.run && text[|seg.run|..] == seg.rest;
      VisibleSegment(seg.run, RewriteFnTags(seg.rest, m));
    }
  }

  lemma {:induction false} RoundUnfold(text: string, st: TagState, g: Ground)
    requires text != ""
    ensures var seg, runs, n := NextSegment(text), Runs(text, st, g.base, g.styles), DrawingCount(text, st, g.base, g.styles);
            && (seg.Block? ==>
                  var st' := ApplyTags(seg.tag, st, g.base, g.styles);
                  && runs == Runs(seg.rest, st', g.base, g.styles)
                  && n == (if st.level <= 0 && st'.level > 0 then 1 else 0) + DrawingCount(seg.rest, st', g.base, g.styles))
            && (seg.Visible? ==>
                  && runs == RunOf(seg.run, st) + Runs(seg.rest, st, g.base, g.styles)
                  && n == DrawingCount(seg.rest, st, g.base, g.styles))
  {
  }

  /** The renamed Text field has the renamed runs, slot for slot and text for text, and as many drawings. */
  lemma {:induction false} TextKept(text: string, st: TagState, g: Ground, m: Renaming)
    requires GoodNames(m) && GoodText(text, m) && Settled(st.style.font, m) && SettledGround(g, m)
    ensures var text', st', g' := RewriteFnTags(text, m), RenamedState(st, m), RenamedGround(g, m);
            && Runs(text', st', g'.base, g'.styles) == RenamedRuns(Runs(text, st, g.base, g.styles), m)
            && DrawingCount(text', st', g'.base, g'.styles) == DrawingCount(text, st, g.base, g.styles)
    decreases |text|
  {
    var text', st', g' := RewriteFnTags(text, m), RenamedState(st, m), RenamedGround(g, m);
    if text != "" {
      var seg := NextSegment(text);
      SegmentKept(text, m);
      SegmentParts(text);
      RoundUnfold(text, st, g);
      RoundUnfold(text', st', g');
      hide NextSegment, Runs, DrawingCount, GoodTags, RewriteFnTags, ApplyTags, RunOf, NoHits, Settled, SettledGround, RenamedRuns, GoodNames;
      if seg.Block? {
        TagsKept(seg.tag, st, g, m);
        TextKept(seg.rest, ApplyTags(seg.tag, st, g.base, g.styles), g, m);
      } else {
        RunKept(seg.run, st, m);
        TextKept(seg.rest, st, g, m);
        RenamedRunsAppend(RunOf(seg.run, st), Runs(seg.rest, st, g.base, g.styles), m);
      }
    }
  }
}
