/**
  Stripping undoes subsetting: the strip pass after the subset pass is the strip pass over the
  original with the composed renaming.
*/
module RoundTrip {
  import opened Text
  import opened FontNames
  import opened Drawings
  import opened Document
  import opened LineFacts

  // What one subset pass and the strip pass after it work with.
  datatype Plan = Plan(
    fontLines: seq<string>, comments: seq<string>, m: Renaming, r: Renaming, drawings: DrawMap, kept: seq<string>)

  function Forward(plan: Plan): SubsetEnv {
    SubsetEnv(plan.fontLines, plan.comments, plan.m)
  }

  function Backward(plan: Plan): StripEnv {
    StripEnv(plan.kept, plan.r, plan.drawings)
  }

  // The strip pass that does the work of both.
  function Direct(plan: Plan): StripEnv {
    StripEnv(plan.kept, Compose(plan.m, plan.r), plan.drawings)
  }

  // A font section that is skipped as a whole: its header, then no other header.
  predicate SkippedWhole(fontLines: seq<string>) {
    && (fontLines != [] ==> Header(fontLines[0]) == Some("fonts"))
    && (forall i :: 1 <= i < |fontLines| ==> Header(fontLines[i]) == None)
  }

  predicate Recognised(comments: seq<string>, r: Renaming) {
    forall i :: 0 <= i < |comments| ==> Header(comments[i]) == None && IsRestoredComment(comments[i], r)
  }

  predicate GoodPlan(plan: Plan) {
    CleanNames(plan.m) && SkippedWhole(plan.fontLines) && Recognised(plan.comments, plan.r)
  }

  // No font section and no mapping comment of its own.
  predicate Unmarked(line: string) {
    Header(line) != Some("fonts") && !IsComment(line)
  }

  predicate AllUnmarked(lines: seq<string>) {
    forall i :: 0 <= i < |lines| ==> Unmarked(lines[i])
  }

  // The states of the two passes agree on what decides how a line is treated.
  predicate Agree(a: Pass, b: Pass) {
    a.section == b.section && a.format == b.format && !a.skipping && !b.skipping
  }

  lemma {:induction false} StripLinesAppend(st: Pass, a: seq<string>, b: seq<string>, env: StripEnv)
    ensures var (out, next) := StripLines(st, a, env);
            StripLines(st, a + b, env) == (out + StripLines(next, b, env).0, StripLines(next, b, env).1)
    decreases |a|
  {
    hide StripLine;
    if a == [] {
      assert a + b == b;
      assert [] + StripLines(st, b, env).0 == StripLines(st, b, env).0;
    } else {
      assert (a + b)[0] == a[0] && (a + b)[1..] == a[1..] + b;
      var (out, st') := StripLine(st, a[0], env);
      StripLinesAppend(st', a[1..], b, env);
      var (more, next) := StripLines(st', a[1..], env);
      AssocSeq(out, more, StripLines(next, b, env).0);
    }
  }

  lemma {:induction false} StripOne(st: Pass, line: string, env: StripEnv)
    ensures StripLines(st, [line], env) == StripLine(st, line, env)
  {
    var (out, st') := StripLine(st, line, env);
    assert [line][1..] == [];
    assert StripLines(st', [], env) == ([], st');
    assert out + [] == out;
  }

  lemma {:induction false} StripSkips(st: Pass, lines: seq<string>, env: StripEnv)
    requires st.skipping && forall i :: 0 <= i < |lines| ==> Header(lines[i]) == None
    ensures StripLines(st, lines, env) == ([], st)
    decreases |lines|
  {
    hide Header;
    if lines != [] {
      assert StripLine(st, lines[0], env) == ([], st);
      StripSkips(st, lines[1..], env);
      assert [] + StripLines(st, lines[1..], env).0 == [];
    }
  }

  // The embedded section leaves nothing but the state of skipping it.
  lemma {:induction false} StripSection(st: Pass, fontLines: seq<string>, env: StripEnv)
    requires SkippedWhole(fontLines) && fontLines != []
    ensures StripLines(st, fontLines, env) == ([], st.(section := "fonts", skipping := true))
  {
    var st' := st.(section := "fonts", skipping := true);
    assert StripLine(st, fontLines[0], env) == ([], st');
    hide Header, StripLine;
    assert fontLines == [fontLines[0]] + fontLines[1..];
    StripOne(st, fontLines[0], env);
    StripSkips(st', fontLines[1..], env);
    StripLinesAppend(st, [fontLines[0]], fontLines[1..], env);
  }

  lemma {:induction false} StripComments(st: Pass, comments: seq<string>, env: StripEnv)
    requires !st.skipping && Recognised(comments, env.names)
    ensures StripLines(st, comments, env) == ([], st)
    decreases |comments|
  {
    hide Header, IsRestoredComment;
    if comments != [] {
      assert StripLine(st, comments[0], env) == ([], st);
      StripComments(st, comments[1..], env);
      assert [] + StripLines(st, comments[1..], env).0 == [];
    }
  }

  // A header is treated alike, whatever was inserted around it.
  lemma {:induction false} StripEntered(st: Pass, st': Pass, h: string, line: string, plan: Plan)
    requires GoodPlan(plan) && Agree(st, st') && Header(line) == Some(h) && h != "fonts"
    ensures var (out, next) := Enter(st, h, line, plan.fontLines, plan.comments);
            StripLines(st', out, Backward(plan)) == StripLine(st', line, Direct(plan))
            && Agree(next, StripLine(st', line, Direct(plan)).1)
  {
    var env := Backward(plan);
    var insert := h == "events" && !st.inserted && plan.fontLines != [];
    var comment := h == "script info" && !st.commented;
    var before, after := if insert then plan.fontLines else [], if comment then plan.comments else [];
    var (out, next) := Enter(st, h, line, plan.fontLines, plan.comments);
    assert out == before + [line] + after;
    if insert {
      StripSection(st', plan.fontLines, env);
    }
    var s1 := StripLines(st', before, env).1;
    assert StripLines(st', before, env).0 == [] && s1.inserted == st'.inserted && s1.commented == st'.commented;
    var (back, s2) := StripLine(s1, line, env);
    assert (back, s2) == StripLine(st', line, Direct(plan)) && !s2.skipping;
    if comment {
      StripComments(s2, plan.comments, env);
    }
    assert Agree(next, s2);
    hide StripLine, Enter, Header, IsRestoredComment;
    assert StripLines(s2, after, env) == ([], s2);
    StripLinesAppend(st', before, [line], env);
    StripOne(s1, line, env);
    StripLinesAppend(st', before + [line], after, env);
    assert [] + back == back && back + [] == back;
  }

  // Any other line comes back as the strip pass with the composed renaming writes it.
  lemma {:induction false} StripOrdinary(st: Pass, st': Pass, line: string, plan: Plan)
    requires GoodPlan(plan) && Agree(st, st') && Header(line) == None && !IsComment(line)
    ensures var (out, next) := SubsetLine(st, line, Forward(plan));
            StripLines(st', out, Backward(plan)) == StripLine(st', line, Direct(plan))
            && Agree(next, StripLine(st', line, Direct(plan)).1)
  {
    var (out, next) := SubsetLine(st, line, Forward(plan));
    NoCommentIsNotRestored(line, plan.r);
    NoCommentIsNotRestored(line, Direct(plan).names);
    StripOne(st', out[0], Backward(plan));
    assert out == [out[0]];
    hide StripLines;
    if InStyles(st.section) {
      StyleStepKeepsKind(st, line, plan.m);
      StyleStepCompose(st, st', line, plan.m, plan.r);
      NoCommentIsNotRestored(out[0], plan.r);
      StyleStepSection(st, line, plan.m);
      StyleStepSection(st', out[0], plan.r);
      StyleStepSection(st', line, Compose(plan.m, plan.r));
      hide Header, IsComment, IsRestoredComment, StyleStep, Contains, Compose;
    } else if st.section == "events" {
      RewriteNoHeader(line, plan.m);
      RewriteNoComment(line, plan.m);
      NoCommentIsNotRestored(out[0], plan.r);
      RewriteCompose(line, plan.m, plan.r);
      hide Header, IsComment, IsRestoredComment, RewriteFnTags, Restore, Contains, Compose;
    } else {
      hide Header, IsComment, IsRestoredComment, Contains, Compose;
    }
  }

  lemma StyleStepSection(st: Pass, line: string, m: Renaming)
    ensures var next := StyleStep(st, line, m).1;
            next == st.(format := next.format)
  {
  }

  /**
    The strip pass over what the subset pass wrote is the strip pass over the original lines with
    the composed renaming, lines and state: the subset pass's section and comments are gone, and
    nothing else was lost or added.
  */
  lemma {:induction false} StripOfSubset(st: Pass, st': Pass, lines: seq<string>, plan: Plan)
    requires GoodPlan(plan) && Agree(st, st') && AllUnmarked(lines)
    ensures StripLines(st', SubsetLines(st, lines, Forward(plan)).0, Backward(plan)) == StripLines(st', lines, Direct(plan))
    decreases |lines|
  {
    if lines != [] {
      var line, tail := lines[0], lines[1..];
      assert Unmarked(line);
      var (out, next) := SubsetLine(st, line, Forward(plan));
      if Header(line).Some? {
        StripEntered(st, st', Header(line).value, line, plan);
      } else {
        StripOrdinary(st, st', line, plan);
      }
      var next' := StripLine(st', line, Direct(plan)).1;
      assert StripLines(st', out, Backward(plan)) == StripLine(st', line, Direct(plan)) && Agree(next, next');
      hide SubsetLine, StripLine, Header, IsComment, GoodPlan, Compose;
      StripOfSubset(next, next', tail, plan);
      StripLinesAppend(st', out, SubsetLines(next, tail, Forward(plan)).0, Backward(plan));
    }
  }
}
