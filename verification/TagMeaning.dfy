/**
  Renaming fonts inside override tags and dialogue text, as the interpreter sees it: the renamed
  text yields the same runs under the renamed fonts. The interpreter cuts a block into tags by its
  own rules and the renaming finds `\fn` tags by a pattern, so the two are first shown to meet at
  the same places, and then to agree, tag by tag, on the state a block leaves behind.
*/
module TagMeaning {
  import opened Text
  import opened Tags
  import opened FontNames
  import opened Interpreter

  // A match that the renaming changes.
  predicate Hit(s: string, m: Renaming) {
    IsFnTag(s) && LookupName(FnArg(s)) in m
  }

  // No changed match starts in the first `n` characters.
  predicate NoHits(s: string, n: nat, m: Renaming)
    requires n <= |s|
  {
    forall i :: 0 <= i < n ==> !Hit(s[i..], m)
  }

  lemma {:induction false} RewriteHit(s: string, m: Renaming)
    requires Hit(s, m)
    ensures RewriteFnTags(s, m) == FN + m[LookupName(FnArg(s))] + RewriteFnTags(s[MatchLen(s)..], m)
  {
  }

  lemma {:induction false} RewriteMiss(s: string, m: Renaming)
    requires s != "" && !Hit(s, m)
    ensures RewriteFnTags(s, m) == [s[0]] + RewriteFnTags(s[1..], m)
  {
    if IsFnTag(s) {
      FnParts(s);
      RewriteStep(s, m);
      MissedTag(FnArg(s), s[MatchLen(s)..], m);
    } else {
      RewriteKeepsNoTag(s, m);
    }
  }

  lemma {:induction false} MissedTag(arg: string, rest: string, m: Renaming)
    requires Plain(arg)
    ensures FN + arg + RewriteFnTags(rest, m) == ['\\'] + RewriteFnTags((FN + arg + rest)[1..], m)
  {
    hide RewriteFnTags;
    var tail := "fn" + arg;
    assert '\\' !in tail;
    RewriteWithoutTags(tail, rest, m);
    DropFirst('\\', tail, rest);
    DropFirst('\\', tail, RewriteFnTags(rest, m));
    assert FN == "\\" + "fn";
    Assoc("\\", "fn", arg);
  }

  lemma DropFirst(c: char, a: string, b: string)
    ensures ([c] + a + b)[1..] == a + b && [c] + a + b == [c] + (a + b)
  {
  }

  lemma {:induction false} RewriteSkips(s: string, n: nat, m: Renaming)
    requires n <= |s| && NoHits(s, n, m)
    ensures RewriteFnTags(s, m) == s[..n] + RewriteFnTags(s[n..], m)
    decreases n
  {
    hide *;
    if n > 0 {
      NoHitsTail(s, n, m);
      RewriteMiss(s, m);
      RewriteSkips(s[1..], n - 1, m);
      SplitTail(s, n);
      Assoc([s[0]], s[1..][..n - 1], RewriteFnTags(s[n..], m));
    } else {
      NothingSkipped(s, RewriteFnTags(s, m));
    }
  }

  lemma NothingSkipped(s: string, t: string)
    ensures s[0..] == s && s[..0] + t == t
  {
  }

  lemma NoHitsTail(s: string, n: nat, m: Renaming)
    requires 0 < n <= |s| && NoHits(s, n, m)
    ensures !Hit(s, m) && NoHits(s[1..], n - 1, m)
  {
    hide Hit;
    assert s[0..] == s;
    forall i | 0 <= i < n - 1
      ensures !Hit(s[1..][i..], m)
    {
      assert s[1..][i..] == s[i + 1..];
    }
  }

  lemma SplitTail(s: string, n: nat)
    requires 0 < n <= |s|
    ensures s[..n] == [s[0]] + s[1..][..n - 1] && s[1..][n - 1..] == s[n..]
  {
  }

  // ----- Renamed styles and runs -----

  predicate GoodNames(m: Renaming) {
    CleanNames(m) && forall k :: k in m ==> m[k] != "0"
  }

  // A name that is normal, or that is not renamed however often it is normalised.
  predicate Settled(font: string, m: Renaming) {
    && font != ""
    && (NormFont(font) == font || (LookupName(font) !in m && LookupName(NormFont(font)) !in m))
  }

  predicate SettledStyles(styles: Styles, m: Renaming) {
    forall k :: k in styles ==> Settled(styles[k].font, m)
  }

  function RenamedStyle(s: StyleInfo, m: Renaming): StyleInfo {
    s.(font := Renamed(m, s.font))
  }

  function RenamedState(st: TagState, m: Renaming): TagState {
    st.(style := RenamedStyle(st.style, m))
  }

  function RenamedGround(g: Ground, m: Renaming): Ground {
    Ground(RenamedStyle(g.base, m), RenamedStyles(g.styles, m))
  }

  function RenamedStyles(styles: Styles, m: Renaming): Styles {
    map k | k in styles :: RenamedStyle(styles[k], m)
  }

  // The runs with every font replaced by its new name.
  function RenamedRuns(runs: seq<Run>, m: Renaming): (r: seq<Run>)
    ensures |r| == |runs|
  {
    seq(|runs|, i requires 0 <= i < |runs| => runs[i].(font := Renamed(m, runs[i].font)))
  }

  lemma RenamedRunsAppend(a: seq<Run>, b: seq<Run>, m: Renaming)
    ensures RenamedRuns(a + b, m) == RenamedRuns(a, m) + RenamedRuns(b, m)
  {
  }

  predicate SettledGround(g: Ground, m: Renaming) {
    Settled(g.base.font, m) && SettledStyles(g.styles, m)
  }

  // ----- One tag -----

  // The part of a block an argument takes, and the rest of the block.
  function Taken(u: string): string {
    u[..|u| - |ReadTagArg(u).1|]
  }

  // The renaming and the interpreter agree on the `\fn` argument `u` starts with: both see the
  // same name, or neither sees one that is renamed.
  predicate FnKept(u: string, m: Renaming) {
    var x, key := NormFont(ReadTagArg(u).0), LookupName(u[..ArgEnd(u)]);
    if x == "" || x == "0" then key !in m
    else LookupName(x) in m || key in m ==> LookupName(x) == key
  }

  predicate Parenthesised(u: string) {
    u != "" && u[0] == '(' && ')' in u[1..]
  }

  lemma {:induction false} Absent(s: string, c: char)
    ensures FindChar(s, c) == |s| <==> c !in s
  {
    FindCharFirst(s, c);
    assert s[..|s|] == s;
  }

  // Text without new closing parentheses does not make an argument a parenthesised one.
  lemma StaysOpen(c: string, rest: string, rest': string)
    requires (rest == "" <==> rest' == "") && (rest != "" ==> rest'[0] == rest[0])
    requires ')' in rest' ==> ')' in rest
    ensures Parenthesised(c + rest') ==> Parenthesised(c + rest)
  {
    if c == "" {
      assert c + rest == rest && c + rest' == rest';
      if rest != "" {
        assert rest == [rest[0]] + rest[1..] && rest' == [rest'[0]] + rest'[1..];
      }
    } else {
      assert (c + rest)[1..] == c[1..] + rest && (c + rest')[1..] == c[1..] + rest';
    }
  }

  lemma ReadParenthesised(arg: string, rest: string)
    requires ')' !in arg
    ensures ReadTagArg("(" + arg + ")" + rest) == (arg, rest)
  {
    var u := "(" + arg + ")" + rest;
    assert u[1..] == arg + (")" + rest);
    FindCharIs(arg, ')', ")" + rest);
    assert u[1..1 + |arg|] == arg && u[|arg| + 2..] == rest;
  }

  lemma ReadOpen(c: string, rest: string)
    requires '\\' !in c && (rest != "" ==> rest[0] == '\\') && !Parenthesised(c + rest)
    ensures ReadTagArg(c + rest) == (Trim(c), rest)
  {
    var u := c + rest;
    hide Trim;
    FindCharIs(c, '\\', rest);
    if u != "" {
      Absent(u[1..], ')');
    }
    assert u[..|c|] == c && u[|c|..] == rest;
  }

  // The two forms of an argument.
  lemma ReadForms(u: string)
    ensures u == Taken(u) + ReadTagArg(u).1
    ensures var (arg, rest) := ReadTagArg(u);
            if Parenthesised(u) then ')' !in arg && u == "(" + arg + ")" + rest && Taken(u) == "(" + arg + ")"
            else u == Taken(u) + rest && arg == Trim(Taken(u)) && '\\' !in Taken(u) && (rest != "" ==> rest[0] == '\\')
  {
    hide Trim;
    if u != "" {
      Absent(u[1..], ')');
    }
    if Parenthesised(u) {
      var k := FindChar(u[1..], ')');
      FindCharFirst(u[1..], ')');
      assert u[1..][..k] == u[1..k + 1] && u[k + 1] == ')';
    } else {
      FindCharFirst(u, '\\');
    }
  }

  // An argument that holds no backslash is cut off in the same place whatever follows it.
  lemma ArgumentAgain(u: string, rest': string)
    requires var rest := ReadTagArg(u).1;
             && (rest == "" <==> rest' == "") && (rest != "" ==> rest'[0] == rest[0])
             && (')' in rest' ==> ')' in rest)
    ensures ReadTagArg(Taken(u) + rest') == (ReadTagArg(u).0, rest')
  {
    ReadForms(u);
    var (arg, rest) := ReadTagArg(u);
    hide ReadTagArg, Taken, Trim;
    if Parenthesised(u) {
      ReadParenthesised(arg, rest');
    } else {
      StaysOpen(Taken(u), rest, rest');
      ReadOpen(Taken(u), rest');
    }
  }

  predicate TakesArgument(t: string) {
    t != "" && (t[0] == 'r' || t[0] == 'b' || t[0] == 'i' || t[0] == 'p')
  }

  // The conditions on the tags of one block, tag by tag as the interpreter reads them.
  predicate GoodTags(tag: string, m: Renaming)
    decreases |tag|
  {
    tag == "" ||
    var t := tag[1..];
    if tag[0] != '\\' then GoodTags(t, m)
    else if IsFn(t) then
      var x := NormFont(ReadTagArg(t[2..]).0);
      && FnKept(t[2..], m) && (x != "" && x != "0" ==> Settled(x, m))
      && '\\' !in Taken(t[2..]) && GoodTags(ReadTagArg(t[2..]).1, m)
    else if TakesArgument(t) then '\\' !in Taken(t[1..]) && GoodTags(ReadTagArg(t[1..]).1, m)
    else GoodTags(t[FindChar(t, '\\')..], m)
  }

  lemma NoHitsInside(s: string, n: nat, m: Renaming)
    requires 1 <= n <= |s| && !Hit(s, m) && '\\' !in s[1..n]
    ensures NoHits(s, n, m)
  {
    hide Hit;
    forall i | 0 <= i < n
      ensures !Hit(s[i..], m)
    {
      if i == 0 {
        assert s[0..] == s;
      } else {
        assert s[i] == s[1..n][i - 1];
        NoTagHere(s, i, m);
      }
    }
  }

  lemma NoTagHere(s: string, i: nat, m: Renaming)
    requires i < |s| && s[i] != '\\'
    ensures !Hit(s[i..], m)
  {
  }

  // What the renaming leaves of a block from `n` on.
  lemma {:induction false} HeadKept(s: string, n: nat, m: Renaming)
    requires CleanNames(m) && 1 <= n <= |s| && !Hit(s, m) && '\\' !in s[1..n]
    ensures RewriteFnTags(s, m) == s[..n] + RewriteFnTags(s[n..], m)
    ensures var rest, rest' := s[n..], RewriteFnTags(s[n..], m);
            && (rest == "" <==> rest' == "") && (rest != "" ==> rest'[0] == rest[0])
            && (')' in rest' ==> ')' in rest)
  {
    NoHitsInside(s, n, m);
    hide Hit;
    RewriteSkips(s, n, m);
    RewriteKeepsFirst(s[n..], m);
    if ')' in RewriteFnTags(s[n..], m) {
      RewriteChars(s[n..], m, ')');
    }
  }

  // A parenthesised name is not what the renaming looks up.
  lemma {:induction false} ParenthesisedMiss(u: string, m: Renaming)
    requires Parenthesised(u) && FnKept(u, m) && '\\' !in Taken(u) && '}' !in u
    ensures LookupName(u[..ArgEnd(u)]) !in m
  {
    ReadForms(u);
    var (arg, rest) := ReadTagArg(u);
    var key, x := LookupName(u[..ArgEnd(u)]), NormFont(arg);
    ArgReaches(u, |Taken(u)|);
    KeepsParenthesis(u[..ArgEnd(u)], |Taken(u)| - 1);
    NormFontChars(arg, ')');
    hide NormFont, ReadTagArg, Taken, ArgEnd, Parenthesised;
    if LookupName(x) == key {
      NormFontChars(x, ')');
      LowerKeeps(NormFont(x), ')');
    }
  }

  lemma {:induction false} ArgReaches(u: string, n: nat)
    requires n <= |u| && '\\' !in u[..n] && '}' !in u
    ensures n <= ArgEnd(u)
  {
    if n > 0 {
      assert u[0] in u[..n] && u[0] in u;
      assert u[1..][..n - 1] == u[..n][1..];
      ArgReaches(u[1..], n - 1);
    }
  }

  lemma NormFontChars(s: string, c: char)
    requires c !in s
    ensures c !in NormFont(s)
  {
    TrimChars(s, c);
    TrimAtsChars(Trim(s), c);
    TrimChars(TrimAts(Trim(s)), c);
  }

  lemma {:induction false} TrimAtsChars(s: string, c: char)
    requires c !in s
    ensures c !in TrimAts(s)
  {
    if s != "" && s[0] == '@' {
      TrimAtsChars(s[1..], c);
    }
  }

  lemma LowerKeeps(s: string, c: char)
    requires c == ')'
    ensures c in Lower(s) <==> c in s
  {
    if c in Lower(s) {
      var i :| 0 <= i < |s| && Lower(s)[i] == c;
      assert s[i] == c;
    }
    if c in s {
      var i :| 0 <= i < |s| && s[i] == c;
      assert Lower(s)[i] == c;
    }
  }

  // A name that starts with a parenthesis keeps the closing one when it is looked up.
  lemma KeepsParenthesis(s: string, i: nat)
    requires i < |s| && s[0] == '(' && s[i] == ')'
    ensures ')' in LookupName(s)
  {
    KeptByTrim(s, i);
    var t := Trim(s);
    assert TrimAts(t) == t;
    assert ')' in t;
    var j :| 0 <= j < |t| && t[j] == ')';
    KeptByTrim(t, j);
    hide Trim;
    LowerKeeps(NormFont(s), ')');
  }

  lemma KeptByTrim(s: string, i: nat)
    requires i < |s| && s[0] == '(' && s[i] == ')'
    ensures ')' in Trim(s) && Trim(s)[0] == '('
  {
    var a, b := TrimSplits(s);
    var t := Trim(s);
    hide Trim;
    BlankIsNo(a);
    BlankIsNo(b);
    assert s[i] in s && s[i] !in a && s[i] !in b;
    assert s == a + (t + b);
  }

  lemma BlankIsNo(w: string)
    requires Blank(w)
    ensures '(' !in w && ')' !in w
  {
  }

  // ----- One step of the tag loop -----

  function Step(tag: string, st: TagState, g: Ground): (TagState, string)
    requires tag != ""
  {
    TagStep(tag, st, g.base, g.styles)
  }

  // The style after a `\fn` tag with this argument.
  function SetFont(st: TagState, arg: string): TagState {
    var x := NormFont(arg);
    if x != "" && x != "0" then st.(style := st.style.(font := x)) else st
  }

  lemma FnStep(u: string, st: TagState, g: Ground)
    ensures Step(FN + u, st, g) == (SetFont(st, ReadTagArg(u).0), ReadTagArg(u).1)
  {
    var tag := FN + u;
    assert tag[1..][2..] == u;
    hide ReadTagArg, NormFont;
  }

  // What is known about a step: the renamed block does the renamed step.
  predicate StepKept(tag: string, st: TagState, g: Ground, m: Renaming)
    requires tag != ""
  {
    var (st', rest) := Step(tag, st, g);
    var tag' := RewriteFnTags(tag, m);
    && tag' != "" && Step(tag', RenamedState(st, m), RenamedGround(g, m)) == (RenamedState(st', m), RewriteFnTags(rest, m))
    && Settled(st'.style.font, m)
  }

  lemma {:induction false} StepIsKept(tag: string, st: TagState, st': TagState, rest: string, g: Ground, m: Renaming)
    requires tag != "" && RewriteFnTags(tag, m) != "" && Step(tag, st, g) == (st', rest) && Settled(st'.style.font, m)
    requires Step(RewriteFnTags(tag, m), RenamedState(st, m), RenamedGround(g, m)) == (RenamedState(st', m), RewriteFnTags(rest, m))
    ensures StepKept(tag, st, g, m)
  {
    hide RewriteFnTags, Step, Settled;
  }

  // A tag in a block, its argument and where it ends.
  lemma {:induction false} FnTagIs(u: string, m: Renaming)
    ensures var tag := FN + u;
            && IsFnTag(tag) && MatchLen(tag) == 3 + ArgEnd(u) && FnArg(tag) == u[..ArgEnd(u)] && tag[MatchLen(tag)..] == u[ArgEnd(u)..]
            && (Hit(tag, m) <==> LookupName(u[..ArgEnd(u)]) in m)
  {
    hide LookupName, ArgEnd;
    var tag := FN + u;
    assert tag[3..] == u;
    assert tag[3..3 + ArgEnd(u)] == u[..ArgEnd(u)] && tag[3 + ArgEnd(u)..] == u[ArgEnd(u)..];
  }

  lemma TakenEnds(u: string)
    ensures u[|Taken(u)|..] == ReadTagArg(u).1
    ensures !Parenthesised(u) && Taken(u) == "" && ReadTagArg(u).1 != "" ==> ReadTagArg(u).1[0] == '\\'
  {
    ReadForms(u);
  }

  // What is left after a changed tag, and its new name read again.
  lemma {:induction false} FnHitRewritten(u: string, m: Renaming)
    requires GoodNames(m) && '}' !in u && FnKept(u, m) && '\\' !in Taken(u) && Hit(FN + u, m)
    ensures var rest, key := ReadTagArg(u).1, LookupName(u[..ArgEnd(u)]);
            && key in m && RewriteFnTags(FN + u, m) == FN + (m[key] + RewriteFnTags(rest, m))
            && ReadTagArg(m[key] + RewriteFnTags(rest, m)) == (m[key], RewriteFnTags(rest, m))
  {
    hide *;
    var tag, rest, key := FN + u, ReadTagArg(u).1, LookupName(u[..ArgEnd(u)]);
    FnTagIs(u, m);
    if Parenthesised(u) {
      ParenthesisedMiss(u, m);
      assert false;
    }
    ReadForms(u);
    ArgEndOpen(u);
    TakenEnds(u);
    RewriteHit(tag, m);
    RewriteKeepsFirst(rest, m);
    NewNameOpen(key, RewriteFnTags(rest, m), m);
    Assoc(FN, m[key], RewriteFnTags(rest, m));
  }

  lemma NewNameOpen(key: string, rest: string, m: Renaming)
    requires GoodNames(m) && key in m && (rest != "" ==> rest[0] == '\\')
    ensures ReadTagArg(m[key] + rest) == (m[key], rest)
  {
    var name := m[key];
    NormFontOfClean(name);
    assert name[0] in name && CleanChar(name[0]);
    CleanHasNo(name, '\\');
    TrimOfTrimmed(name);
    assert (name + rest)[0] == name[0];
    ReadOpen(name, rest);
  }

  // The font a changed tag sets is the renamed font.
  lemma SetFontHit(st: TagState, arg: string, key: string, m: Renaming)
    requires GoodNames(m) && key in m && NormFont(arg) != "" && NormFont(arg) != "0" && LookupName(NormFont(arg)) == key
    ensures SetFont(RenamedState(st, m), m[key]) == RenamedState(SetFont(st, arg), m)
  {
    NormFontOfClean(m[key]);
  }

  lemma FnHitKept(u: string, st: TagState, g: Ground, m: Renaming)
    requires GoodNames(m) && '}' !in u && FnKept(u, m) && '\\' !in Taken(u) && Hit(FN + u, m)
    requires var x := NormFont(ReadTagArg(u).0); x != "" && x != "0" ==> Settled(x, m)
    ensures StepKept(FN + u, st, g, m)
  {
    var (arg, rest) := ReadTagArg(u);
    var key := LookupName(u[..ArgEnd(u)]);
    FnHitRewritten(u, m);
    assert NormFont(arg) != "" && NormFont(arg) != "0" && LookupName(NormFont(arg)) == key;
    assert Settled(SetFont(st, arg).style.font, m);
    hide *;
    SetFontHit(st, arg, key, m);
    FnStep(u, st, g);
    FnStep(m[key] + RewriteFnTags(rest, m), RenamedState(st, m), RenamedGround(g, m));
    StepIsKept(FN + u, st, SetFont(st, arg), rest, g, m);
  }

  lemma CleanHasNo(name: string, c: char)
    requires CleanName(name) && !CleanChar(c)
    ensures c !in name
  {
  }

  lemma {:induction false} ArgEndOpen(u: string)
    requires !Parenthesised(u) && '}' !in u
    ensures ArgEnd(u) == |Taken(u)|
  {
    ReadForms(u);
    var c, rest := Taken(u), ReadTagArg(u).1;
    hide ReadTagArg, Taken;
    assert forall x :: x in c ==> x in u;
    ArgEndIs(c, rest);
  }

  lemma {:induction false} HeadKeptAround(front: string, c: string, rest: string, m: Renaming)
    requires CleanNames(m) && front != "" && '\\' !in front[1..] && '\\' !in c && !Hit(front + (c + rest), m)
    ensures var rest' := RewriteFnTags(rest, m);
            && RewriteFnTags(front + (c + rest), m) == front + (c + rest')
            && (rest == "" <==> rest' == "") && (rest != "" ==> rest'[0] == rest[0])
            && (')' in rest' ==> ')' in rest)
  {
    hide *;
    var tag, n := front + (c + rest), |front| + |c|;
    assert tag[..n] == front + c && tag[n..] == rest && tag[1..n] == front[1..] + c;
    HeadKept(tag, n, m);
    Assoc(front, c, RewriteFnTags(rest, m));
  }

  // An argument without backslashes that is not changed reads the same after the renaming.
  lemma {:induction false} ArgumentKept(front: string, u: string, m: Renaming)
    requires CleanNames(m) && front != "" && '\\' !in front[1..] && '\\' !in Taken(u) && !Hit(front + u, m)
    ensures var rest' := RewriteFnTags(ReadTagArg(u).1, m);
            && RewriteFnTags(front + u, m) == front + (Taken(u) + rest')
            && ReadTagArg(Taken(u) + rest') == (ReadTagArg(u).0, rest')
  {
    hide *;
    ReadForms(u);
    HeadKeptAround(front, Taken(u), ReadTagArg(u).1, m);
    ArgumentAgain(u, RewriteFnTags(ReadTagArg(u).1, m));
  }

  // A font that is not renamed.
  lemma SetFontMiss(st: TagState, arg: string, m: Renaming)
    requires NormFont(arg) == "" || NormFont(arg) == "0" || LookupName(NormFont(arg)) !in m
    ensures SetFont(RenamedState(st, m), arg) == RenamedState(SetFont(st, arg), m)
  {
    hide NormFont, LookupName;
  }

  lemma FnMissKept(u: string, st: TagState, g: Ground, m: Renaming)
    requires GoodNames(m) && FnKept(u, m) && '\\' !in Taken(u) && !Hit(FN + u, m) && Settled(st.style.font, m)
    requires var x := NormFont(ReadTagArg(u).0); x != "" && x != "0" ==> Settled(x, m)
    ensures StepKept(FN + u, st, g, m)
  {
    var tag, arg, rest := FN + u, ReadTagArg(u).0, ReadTagArg(u).1;
    FnTagIs(u, m);
    hide ReadTagArg, LookupName, NormFont, Taken, ArgEnd, Hit, IsFnTag, MatchLen, FnArg, StepKept, Step, RewriteFnTags;
    assert NormFont(arg) == "" || NormFont(arg) == "0" || LookupName(NormFont(arg)) !in m;
    assert Settled(SetFont(st, arg).style.font, m);
    hide *;
    ArgumentKept(FN, u, m);
    SetFontMiss(st, arg, m);
    FnStep(u, st, g);
    FnStep(Taken(u) + RewriteFnTags(rest, m), RenamedState(st, m), RenamedGround(g, m));
    StepIsKept(tag, st, SetFont(st, arg), rest, g, m);
  }

  function TagFront(c: char): string {
    ['\\', c]
  }

  // What a tag with an argument, other than `\fn`, does.
  function TakeArgument(c: char, arg: string, st: TagState, g: Ground): TagState {
    if c == 'r' then
      if Trim(arg) == "" then st.(style := g.base)
      else if Trim(arg) in g.styles then st.(style := g.styles[Trim(arg)]) else st
    else if c == 'b' then st.(style := st.style.(bold := BoldAfter(st.style.bold, Trim(arg))))
    else if c == 'i' then st.(style := st.style.(italic := Boolish(Trim(arg))))
    else
      var n := ParseI32(Trim(arg));
      st.(level := if n.Some? then n.value else 0)
  }

  lemma ArgStep(c: char, u: string, st: TagState, g: Ground)
    requires TakesArgument([c])
    ensures Step(TagFront(c) + u, st, g) == (TakeArgument(c, ReadTagArg(u).0, st, g), ReadTagArg(u).1)
  {
    var tag := TagFront(c) + u;
    assert tag[1..] == [c] + u && tag[1..][1..] == u;
    hide ReadTagArg, NormFont, Trim, ParseI32, Boolish, BoldAfter, FindChar;
  }

  lemma TakenKept(c: char, arg: string, st: TagState, g: Ground, m: Renaming)
    requires Settled(st.style.font, m) && SettledGround(g, m)
    ensures var st' := TakeArgument(c, arg, st, g);
            && TakeArgument(c, arg, RenamedState(st, m), RenamedGround(g, m)) == RenamedState(st', m)
            && Settled(st'.style.font, m)
  {
    hide Trim, ParseI32, Boolish, BoldAfter, Settled, Renamed;
  }

  lemma NotFn(c: char, u: string, m: Renaming)
    requires TakesArgument([c])
    ensures !Hit(TagFront(c) + u, m) && '\\' !in TagFront(c)[1..]
  {
    assert (TagFront(c) + u)[1] == c;
  }

  lemma ArgKept(c: char, u: string, st: TagState, g: Ground, m: Renaming)
    requires GoodNames(m) && TakesArgument([c]) && '\\' !in Taken(u)
    requires Settled(st.style.font, m) && SettledGround(g, m)
    ensures StepKept(TagFront(c) + u, st, g, m)
  {
    hide ReadTagArg, RewriteFnTags, Taken, Step, Hit, Settled, SettledGround, TakeArgument, TakesArgument;
    hide RenamedState, RenamedGround, CleanNames;
    var rest' := RewriteFnTags(ReadTagArg(u).1, m);
    NotFn(c, u, m);
    ArgumentKept(TagFront(c), u, m);
    ArgStep(c, u, st, g);
    ArgStep(c, Taken(u) + rest', RenamedState(st, m), RenamedGround(g, m));
    TakenKept(c, ReadTagArg(u).0, st, g, m);
  }

  // A tag the interpreter does not know.
  predicate Unknown(t: string) {
    !IsFn(t) && !TakesArgument(t)
  }

  lemma {:induction false} UnknownStep(t: string, st: TagState, g: Ground)
    requires Unknown(t)
    ensures Step(['\\'] + t, st, g) == (st, t[FindChar(t, '\\')..])
  {
    var tag := ['\\'] + t;
    assert tag[1..] == t;
    hide ReadTagArg, NormFont, Trim, ParseI32, Boolish, BoldAfter, FindChar;
  }

  lemma NotUnknown(t: string, m: Renaming)
    requires Unknown(t)
    ensures !Hit(['\\'] + t, m)
  {
    var tag := ['\\'] + t;
    assert tag[1..] == t;
    assert |tag| >= 3 ==> tag[1] == t[0] && tag[2] == t[1];
  }

  lemma UnknownKept(t: string, st: TagState, g: Ground, m: Renaming)
    requires GoodNames(m) && Unknown(t) && Settled(st.style.font, m)
    ensures StepKept(['\\'] + t, st, g, m)
  {
    hide RewriteFnTags, FindChar, Step, Hit, Settled, Unknown, RenamedState, RenamedGround, CleanNames;
    var tag, k := ['\\'] + t, FindChar(t, '\\');
    FindCharFirst(t, '\\');
    var head, rest := t[..k], t[k..];
    var rest' := RewriteFnTags(rest, m);
    assert t == head + rest && tag[..k + 1] == ['\\'] + head && tag[1..k + 1] == head && tag[k + 1..] == rest;
    NotUnknown(t, m);
    HeadKept(tag, k + 1, m);
    Assoc(['\\'], head, rest');
    FindCharIs(head, '\\', rest');
    UnknownAgain(t, k, rest');
    UnknownStep(t, st, g);
    UnknownStep(head + rest', RenamedState(st, m), RenamedGround(g, m));
    assert (head + rest')[k..] == rest';
  }

  lemma UnknownAgain(t: string, k: nat, rest': string)
    requires Unknown(t) && k <= |t| && (k < |t| <==> rest' != "") && (k < |t| ==> t[k] == rest'[0] == '\\')
    ensures Unknown(t[..k] + rest')
  {
  }

  // The four kinds of steps, with the conditions on each.
  lemma {:induction false} GoodTagsStep(tag: string, st: TagState, g: Ground, m: Renaming)
    requires tag != "" && '}' !in tag && GoodTags(tag, m)
    ensures var rest := Step(tag, st, g).1; |rest| < |tag| && '}' !in rest && GoodTags(rest, m)
  {
    hide ReadTagArg, FnKept, Settled, Taken, NormFont, Trim, Boolish, ParseI32, BoldAfter, FindChar;
    var t := tag[1..];
    if tag[0] == '\\' && IsFn(t) {
      ReadForms(t[2..]);
      PartHasNo(tag, tag[..3] + Taken(t[2..]), ReadTagArg(t[2..]).1);
    } else if tag[0] == '\\' && TakesArgument(t) {
      ReadForms(t[1..]);
      PartHasNo(tag, tag[..2] + Taken(t[1..]), ReadTagArg(t[1..]).1);
    } else if tag[0] == '\\' {
      PartHasNo(tag, tag[..1 + FindChar(t, '\\')], t[FindChar(t, '\\')..]);
    } else {
      PartHasNo(tag, tag[..1], t);
    }
  }

  lemma PartHasNo(tag: string, a: string, b: string)
    requires tag == a + b && '}' !in tag
    ensures '}' !in b
  {
    assert forall c :: c in b ==> c in a + b;
  }

  lemma PlainStepKept(tag: string, st: TagState, g: Ground, m: Renaming)
    requires tag != "" && tag[0] != '\\' && Settled(st.style.font, m)
    ensures StepKept(tag, st, g, m)
  {
    RewriteKeepsNoTag(tag, m);
    hide RewriteFnTags, Settled, ReadTagArg;
  }

  // What the conditions say about the first tag of a block.
  lemma {:induction false} FirstTag(tag: string, m: Renaming)
    requires tag != "" && tag[0] == '\\' && GoodTags(tag, m)
    ensures IsFn(tag[1..]) ==> |tag| >= 3
    ensures TakesArgument(tag[1..]) ==> |tag| >= 2
    ensures var t := tag[1..];
            if IsFn(t) then
              var u := t[2..];
              var x := NormFont(ReadTagArg(u).0);
              tag == FN + u && FnKept(u, m) && (x != "" && x != "0" ==> Settled(x, m)) && '\\' !in Taken(u)
            else if TakesArgument(t) then tag == TagFront(t[0]) + t[1..] && '\\' !in Taken(t[1..]) && TakesArgument([t[0]])
            else tag == ['\\'] + t && Unknown(t)
  {
    hide ReadTagArg, FnKept, Settled, Taken, NormFont;
  }

  /** One step of the tag loop, after the renaming. */
  lemma {:induction false} TagStepKept(tag: string, st: TagState, g: Ground, m: Renaming)
    requires GoodNames(m) && tag != "" && '}' !in tag && GoodTags(tag, m)
    requires Settled(st.style.font, m) && SettledGround(g, m)
    ensures StepKept(tag, st, g, m)
    ensures var rest := Step(tag, st, g).1; |rest| < |tag| && '}' !in rest && GoodTags(rest, m)
  {
    hide *;
    GoodTagsStep(tag, st, g, m);
    var t := tag[1..];
    if tag[0] != '\\' {
      PlainStepKept(tag, st, g, m);
    } else {
      FirstTag(tag, m);
      if IsFn(t) {
        var u := t[2..];
        PartHasNo(tag, FN, u);
        if Hit(tag, m) {
          FnHitKept(u, st, g, m);
        } else {
          FnMissKept(u, st, g, m);
        }
      } else if TakesArgument(t) {
        ArgKept(t[0], t[1..], st, g, m);
      } else {
        UnknownKept(t, st, g, m);
      }
    }
  }

  /** A renamed override block sets the renamed state. */
  lemma {:induction false} TagsKept(tag: string, st: TagState, g: Ground, m: Renaming)
    requires GoodNames(m) && '}' !in tag && GoodTags(tag, m)
    requires Settled(st.style.font, m) && SettledGround(g, m)
    ensures var st' := ApplyTags(tag, st, g.base, g.styles);
            var g' := RenamedGround(g, m);
            && ApplyTags(RewriteFnTags(tag, m), RenamedState(st, m), g'.base, g'.styles) == RenamedState(st', m)
            && Settled(st'.style.font, m)
    decreases |tag|
  {
    if tag != "" {
      TagStepKept(tag, st, g, m);
      var (st', rest) := Step(tag, st, g);
      hide TagStep, RewriteFnTags, Settled, SettledGround, GoodTags, RenamedGround, RenamedState;
      TagsKept(rest, st', g, m);
    }
  }

  // ----- Exactness for one tag -----

  predicate Injective(m: Renaming) {
    forall a, b :: a in m && b in m && m[a] == m[b] ==> a == b
  }

  // The two readers differ, but the new name is the one that is there anyway: the one the
  // interpreter reads, or the one of the font in force when it ignores the tag.
  predicate SameAnyway(u: string, st: TagState, m: Renaming) {
    var x, key := NormFont(ReadTagArg(u).0), LookupName(u[..ArgEnd(u)]);
    if x == "" || x == "0" then key in m && m[key] == Renamed(m, st.style.font)
    else if key in m then LookupName(x) !in m && m[key] == x
    else LookupName(x) in m && m[LookupName(x)] == x
  }

  // The font a state has after a block that is one `\fn` tag.
  function FontAfter(block: string, st: TagState, g: Ground): string {
    ApplyTags(block, st, g.base, g.styles).style.font
  }

  lemma FontAfterFn(u: string, st: TagState, g: Ground)
    requires Plain(u)
    ensures FontAfter(FN + u, st, g) == SetFont(st, ReadTagArg(u).0).style.font
  {
    ReadForms(u);
    assert '\\' !in u;
    FnStep(u, st, g);
    NothingApplied(ReadTagArg(u).1, SetFont(st, ReadTagArg(u).0), g);
    hide ReadTagArg, TagStep;
  }

  lemma {:induction false} NothingApplied(tag: string, st: TagState, g: Ground)
    requires '\\' !in tag
    ensures ApplyTags(tag, st, g.base, g.styles) == st
    decreases |tag|
  {
    if tag != "" {
      NothingApplied(tag[1..], st, g);
    }
  }

  /**
    The font of a block with one `\fn` tag is renamed exactly when the two readers of the tag see
    the same name, or neither name is renamed, or the new name is there anyway.
  */
  lemma {:induction false} OneTagExact(u: string, st: TagState, g: Ground, m: Renaming)
    requires GoodNames(m) && Injective(m) && Plain(u)
    ensures FontAfter(RewriteFnTags(FN + u, m), RenamedState(st, m), RenamedGround(g, m))
            == Renamed(m, FontAfter(FN + u, st, g))
            <==> FnKept(u, m) || SameAnyway(u, st, m)
  {
    var st', g' := RenamedState(st, m), RenamedGround(g, m);
    OneTagRewritten(u, m);
    var u' := Renamed(m, u);
    FontAfterFn(u, st, g);
    FontAfterFn(u', st', g');
    NewNameRead(u, st', m);
    hide ReadTagArg, RewriteFnTags, LookupName, NormFont, Trim, Lower, ArgEnd, FontAfter, Plain, CleanNames;
  }

  lemma {:induction false} OneTagRewritten(u: string, m: Renaming)
    requires GoodNames(m) && Plain(u)
    ensures RewriteFnTags(FN + u, m) == FN + Renamed(m, u) && Plain(Renamed(m, u)) && u[..ArgEnd(u)] == u
  {
    ArgEndIs(u, "");
    assert u + "" == u && FN + u + "" == FN + u;
    MatchTag(u, "");
    RenamedIsPlain(m, u);
  }

  lemma NewNameRead(u: string, st: TagState, m: Renaming)
    requires GoodNames(m)
    ensures LookupName(u) in m ==> SetFont(st, ReadTagArg(m[LookupName(u)]).0).style.font == m[LookupName(u)]
  {
    if LookupName(u) in m {
      var name := m[LookupName(u)];
      NormFontOfClean(name);
      assert name[0] in name && CleanChar(name[0]);
      TrimOfTrimmed(name);
      assert name + "" == name;
      CleanHasNo(name, '\\');
      ReadOpen(name, "");
    }
  }
}
